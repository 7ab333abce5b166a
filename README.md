# A verified model of the TOEIC learning application's core

The application is a TOEIC vocabulary and writing-practice service. Its
backend is written in Go: a Gin HTTP API over PostgreSQL and Redis. Beside it
sit a small Python service that grades the vocabulary level of a text and two
Python scripts that turn exam and example data into SQL.

Most of the repository is HTTP, database and goroutine plumbing. Underneath
lie small sequential cores with precise behaviour, and this project models
those cores in Dafny and proves what they promise:

- **Word-level analyser** (`word_level_analyzer.dfy`): it builds the
  word-to-CEFR table, keeping the higher level when a word is listed twice.
  It counts the words of a text, picks synonym suggestions at or above the
  learner's level, and sorts the report by level and word.
- **Versions and upgrade notices** (`upgrade.dfy`): it validates and parses
  dotted versions, orders them as triples and classifies them as major,
  minor or patch. The version registry always names the newest version as
  current, and the model decides who is told about a release.
- **Writing scores** (`scoring.dfy`): the heuristic score, the band
  thresholds, band validation, clamping of the model's assessment and the
  suggestion list.
- **Error taxonomy** (`errors_types.dfy`, `errors_metrics.dfy`,
  `enhanced_response.dfy`, `error_handler.dfy`): the code tables, the
  status-to-code mapping, the error counters with their top-N report, and
  the recognition of binding and database errors by substring.
- **Stateful containers**, as classes with the source's fields:
  - the TTL memory cache (`memory_cache.dfy`);
  - the token blacklist (`token_blacklist.dfy`);
  - the analysis result cache (`analyze_cache.dfy`);
  - the sharded cache router (`distributed_cache.dfy`);
  - the alert manager (`alerts.dfy`);
  - the error-rate window (`error_window.dfy`);
  - the backup scheduler (`backup_scheduler.dfy`);
  - the backup monitor (`simple_monitor.dfy`);
  - the message store (`i18n.dfy`);
  - secret rotation (`secrets.dfy`).
- **State machines**: the dependency circuit breaker and the dependency
  graph (`advanced_health.dfy`). The connection-pool manager, with its own
  breaker and its scale clamps (`pool_manager.dfy`).
- **Health aggregation** (`health.dfy`).
- **Validators and string handling**:
  - password, name and e-mail checks (`validation.dfy`);
  - the input-validation and advanced-security middleware
    (`input_validation.dfy`, `advanced_security.dfy`);
  - language detection (`i18n_middleware.dfy`);
  - backup file names (`db_utils.dfy`, `backup_manager.dfy`);
  - the backup administration command's durations, listing and cleanup
    (`backup_admin.dfy`);
  - backup configuration (`backup_config.dfy`) and pool sizing
    (`pool_config.dfy`);
  - retry with backoff (`retry.dfy`);
  - the learning-session question generators (`learning_session.dfy`);
  - response shaping (`response_optimizer.dfy`);
  - SQL escaping in the data scripts (`data_extract.dfy`, `data_main.dfy`).

`common.dfy` holds the shared vocabulary:
- `Option` and `Result`;
- Go's time units and the int64 wrap-around;
- the string primitives of Go's `strings` and `strconv` packages and of
  Python's `str` that the core uses. Case mapping (`Lower`) and case
  folding (`EqualFold`) cover the Latin script, and white space is the
  Unicode White_Space set.

Some things become parameters rather than being modelled:
- **Clock**: the current instant is a parameter `now`.
- **Randomness**: random numbers come in as a sequence of draws.
- **Go map iteration order**: it is a parameter, or a choice the proofs
  quantify over.
- **Code outside the model**: regular-expression matching, HMAC
  verification, JSON decoding, duration parsing and the synonym dictionary
  come in as functions.
- **I/O**: its outcomes (a failed rename, a shard's reply, a probe's
  result) come in as values.

Where code updates objects in place, the model is a class. Where the
source determines the new state, a method states it exactly. Where Go's
map order leaves a choice (which entry is evicted, which quarter is
dropped), the method states the properties every choice has. Lemmas
relate the state to specification functions. The loops of the source are `while` loops
here, each proved against a function, with two exceptions: the inner loops over one header's
values and over one query parameter's values (backend/internal/middleware/input_validation.go,
lines 194 and 220) are the recursive functions `InputValidation.HeaderValuesVerdict` and
`InputValidation.QueryValuesVerdict`, which the outer `while` loops call.

The language middleware differs from its own comment. The comment lists
Accept-Language before X-Language, but the code checks X-Language first.
The model follows the code.

## Model

| member | source | states |
|---|---|---|
| Upgrade.IsValidVersionFormat | backend/internal/upgrade/service.go:375-393 | the character loop accepts exactly the non-empty strings of digits and dots with exactly two dots |
| Upgrade.ParseVersion | backend/internal/upgrade/service.go:412-434 | the character loop computes the specified three parts: digits accumulate in decimal, a dot moves on while fewer than three parts are filled, other characters are ignored, missing parts stay 0 |
| Upgrade.ScanDigits | backend/internal/upgrade/service.go:424-425 | a run of digits read from number 0 leaves the parts alone and makes the number the run's decimal value |
| Upgrade.ScanDot | backend/internal/upgrade/service.go:418-423 | a dot with fewer than three parts filled stores the number in the current part and starts the next one at 0 |
| Upgrade.ParseDotted | backend/internal/upgrade/service.go:412-434 | "x.y.z" with digit runs x, y, z parses to their three decimal values |
| Upgrade.ValidFormatPieces | backend/internal/upgrade/service.go:375-393 | a valid version is three digit runs joined by two dots |
| Upgrade.ParseValid | backend/internal/upgrade/service.go:375-434 | every valid version parses to the decimal values of its three pieces |
| Upgrade.IsNewerVersion | backend/internal/upgrade/service.go:395-410 | the part-by-part loop decides the lexicographic "greater than" of the parsed triples |
| Upgrade.GtFirstDifference | backend/internal/upgrade/service.go:401-409 | one triple is greater exactly when it is greater at the first part where the two differ |
| Upgrade.NewerIrreflexive | backend/internal/upgrade/service.go:395-410 | no version is newer than itself |
| Upgrade.NewerAsymmetric | backend/internal/upgrade/service.go:395-410 | two versions are never newer than each other |
| Upgrade.NewerTransitive | backend/internal/upgrade/service.go:395-410 | newer than a newer version is newer |
| Upgrade.NotNewerTransitive | backend/internal/upgrade/service.go:395-410 | "not newer" is transitive, so newest-first order is well defined |
| Upgrade.NewerTotal | backend/internal/upgrade/service.go:395-410 | of two versions with different parsed triples, one is newer |
| Upgrade.GetVersionType | backend/internal/upgrade/service.go:436-447 | the type is one of major, minor, patch; major exactly when the first part is positive, patch exactly when the first two are not |
| Upgrade.VersionTypeOfDotted | backend/internal/upgrade/service.go:436-447 | for "x.y.z" the type follows the written numbers x and y |
| Upgrade.InsertNewest | backend/internal/upgrade/service.go:366-368 | inserting a version into a newest-first list adds exactly that version |
| Upgrade.InsertNewestSorted | backend/internal/upgrade/service.go:366-368 | insertion keeps a list newest first |
| Upgrade.ShouldNotifyUser | backend/internal/upgrade/service.go:316-343 | a non-subscriber is notified exactly about required versions; a subscriber who asked for required ones always hears about them |
| Upgrade.SubscriberByVersionParts | backend/internal/upgrade/service.go:331-342 | otherwise a subscriber hears by the version's first positive part: the major, minor or patch preference |
| Upgrade.SilentSubscriber | backend/internal/upgrade/service.go:316-343 | a subscriber who opted out of everything is never notified |
| Upgrade.AddKeepsRegistry | backend/internal/upgrade/service.go:115-121 | filing a valid version, and moving the current one to it when it is newer, keeps every stored version valid and none newer than the current one |
| Upgrade.InitialRegistry | backend/internal/upgrade/service.go:74-95 | the registry holding only release 1.0.0 satisfies the invariant |
| Upgrade.Service.constructor | backend/internal/upgrade/service.go:67-99 | a new service holds release 1.0.0 as current and only version, and no subscribers |
| Upgrade.Service.AddVersion | backend/internal/upgrade/service.go:102-125 | an empty or invalid version is rejected with its message and changes nothing; a valid one is filed and becomes current exactly when newer; the invariant is kept |
| Upgrade.Service.File | backend/internal/upgrade/service.go:115-121 | files a valid version under its string, moving the current version to it when it is newer |
| Upgrade.Service.Subscribe | backend/internal/upgrade/service.go:239-258 | given preferences are stored as they are except that the user id and the subscription time are set; without them the user gets major, minor and required but not patches; no other entry changes |
| Upgrade.Service.Unsubscribe | backend/internal/upgrade/service.go:261-268 | exactly the user's entry is removed |
| Upgrade.Service.IsVersionDeprecated | backend/internal/upgrade/service.go:346-353 | true exactly when the version is in the current version's deprecated list |
| Upgrade.Service.GetNewerVersions | backend/internal/upgrade/service.go:356-371 | exactly the stored versions newer than the given one, each once, newest first |
| Upgrade.Service.CheckForUpdates | backend/internal/upgrade/service.go:185-236 | an invalid input never has an update and says so; otherwise there is an update exactly when the current version is newer, it is required exactly when the current release is required or deprecates the input, the latest release is the current one, and the notifications are one per stored version newer than the input, newest first, each with that version's title, flag and the platform's download link when it has one |
| Upgrade.Notify | backend/internal/upgrade/service.go:215-232 | one notification per newer version, in order, with its version, title and flag, and the platform's download link exactly when it has one |
| Upgrade.CollectNewerVersions | backend/internal/upgrade/service.go:357-368 | the loop over the version map, in any key order, collects exactly the newer versions, each once, newest first |
| Upgrade.CollectOne | backend/internal/upgrade/service.go:359-363 | one turn of that loop inserts the version exactly when it is newer |
| Upgrade.CollectNewer | backend/internal/upgrade/service.go:360-361 | inserting a newer version extends what is collected |
| Upgrade.CollectOlder | backend/internal/upgrade/service.go:360 | skipping a version that is not newer keeps what is collected |
| Scoring.ScoreToBand | backend/internal/ai/scoring_service.go:277-300 | the band is 1..10: 10 from 200 up, 1 below 40, and score/20 in between |
| Scoring.ScoreToBandMonotone | backend/internal/ai/scoring_service.go:277-300 | a higher score never gets a lower band |
| Scoring.BandWidth | backend/internal/ai/scoring_service.go:281-296 | each of bands 2..9 covers exactly the 20 scores from 20 times the band |
| Scoring.ValidateBand | backend/internal/ai/scoring_service.go:610-636 | "1".."10" give their own band and any other text gives band 4 |
| Scoring.ValidateBandName | backend/internal/ai/scoring_service.go:610-636 | validating a band's own name gives the band back |
| Scoring.GetOrDefault | backend/internal/ai/scoring_service.go:603-608 | the stored value when the key is present with a non-empty value, the default otherwise |
| Scoring.Clamp | backend/internal/ai/scoring_service.go:506-512 | the result lies in the range; an input below it gives the lower bound, one above it the upper bound, and one inside it itself |
| Scoring.ClampConfidence | backend/internal/ai/scoring_service.go:524-531 | the confidence lies in 0..1; a negative one becomes 0, one above 1 becomes 1, and one inside is kept |
| Scoring.BasicScore | backend/internal/ai/scoring_service.go:231-275 | the score is 100 plus the length adjustment (-40 below 50 words, -20 below 100, -10 above 400, +20 for 150..300), the sentence adjustment (-15 below 8 words per sentence, -20 above 25, +15 for 12..20), 10 for a transition word in any case and 5 for more commas than one per twenty words; it always lies in 40..150, so the clamp to 0..200 never bites; a very short text with very short sentences scores at most 60, and one in both optimal ranges at least 135 |
| Scoring.TransitionWorthTen | backend/internal/ai/scoring_service.go:254-259 | of two texts that differ only in having a transition word, the one that has it scores exactly 10 more |
| Scoring.CalculateBasicScore | backend/internal/ai/scoring_service.go:231-275 | the method's step-by-step score is the heuristic score above, within 0..200 |
| Scoring.BandSuggestion | backend/internal/ai/scoring_service.go:389-400 | every band has one band-specific suggestion, the congratulation exactly for band 10 |
| Scoring.ScoreTips | backend/internal/ai/scoring_service.go:375-388 | two tips below each of 160, 120 and 80 points, never the length tip or a band suggestion |
| Scoring.SuggestionsFor | backend/internal/ai/scoring_service.go:365-405 | the list ends with exactly one band suggestion, that of the band; it holds the length tip exactly when there are fewer than 100 words; its length is one per threshold the score is below (two tips each), one for the length tip, one for the band |
| Scoring.ScoreTipsGrow | backend/internal/ai/scoring_service.go:375-388 | a lower score never loses a tip: the tips of a higher score are a prefix of those of a lower one |
| Scoring.GenerateSuggestions | backend/internal/ai/scoring_service.go:365-405 | the method appends the suggestions for the text's word count, the score and the band, and holds the length tip exactly when the text has fewer than 100 words |
| Scoring.FeedbackFrom | backend/internal/ai/scoring_service.go:514-522 | each of the seven criteria is the decoded value under its JSON key when present and non-empty, and "No feedback provided" otherwise |
| Scoring.JsonSpan | backend/internal/ai/scoring_service.go:481-490 | the JSON text exists exactly when a '{' comes before the last '}', and then runs from the first brace to the last |
| Scoring.ParseAIAssessment | backend/internal/ai/scoring_service.go:476-541 | no braces in order gives "no valid JSON found", an undecodable object gives "failed to parse AI JSON response: " followed by the decoder's error, and a decoded object gives the response whose score is the decoded score clamped to 0..200, whose band is the validated band name, whose feedback is the decoded criteria with their defaults, whose suggestions are the decoded ones and whose confidence is clamped to 0..1 |
| Scoring.ParseKeepsInRange | backend/internal/ai/scoring_service.go:503-531 | a decoded score, confidence or band that is already valid passes through unchanged |
| Scoring.SentenceCount | backend/internal/ai/scoring_service.go:546-549 | the sentence count is the number of terminators, or 1 when there is none |
| Scoring.FallbackScoring | backend/internal/ai/scoring_service.go:543-577 | the fallback score is the heuristic score of the text's word count and average words per sentence, within 40..150; the band is that score's band, the suggestions are those for the word count, score and band, ending with the band's one, and the confidence is 0.60 |
| ErrorTypes.GetHTTPStatus | backend/internal/errors/types.go:155-179 | the status is one of 400, 401, 403, 404, 408, 409, 429, 500 and 503, and 500 for a code the table does not declare |
| ErrorTypes.GetSeverity | backend/internal/errors/types.go:182-196 | the severity is one of low, medium, high and critical, and medium for an undeclared code |
| ErrorTypes.GetCategory | backend/internal/errors/types.go:199-216 | the category is one of the seven categories, and server for an undeclared code |
| ErrorTypes.HTTPStatusPreimages | backend/internal/errors/types.go:155-179 | each HTTP status is produced by exactly its listed codes (401 for the auth codes, 400 for the validation codes, 409 for already-exists and conflict, ...) and every status is one of the nine the switch names, 500 otherwise |
| ErrorTypes.SeverityPreimages | backend/internal/errors/types.go:182-196 | low, high and critical severity each come from exactly their listed codes; every other code is medium |
| ErrorTypes.CategoryPreimages | backend/internal/errors/types.go:199-216 | validation, auth, database and external categories each come from exactly their listed codes |
| ErrorTypes.CategoryBusinessClient | backend/internal/errors/types.go:209-212 | business and client categories each come from exactly their listed codes |
| ErrorTypes.CategoryServerDefault | backend/internal/errors/types.go:213-214 | a code is in the server category exactly when no other category lists it |
| ErrorTypes.TablesAgree | backend/internal/errors/types.go:155-216 | the three tables are consistent: validation errors are 400 and low, auth errors 401 or 403, database errors 500 and high or critical, an undeclared code is 500, medium and server |
| ErrorTypes.FormatError | backend/internal/errors/types.go:68-73 | the text starts with code, colon, message; it equals that exactly when details are empty, and otherwise ends with a dash and the details |
| ErrorTypes.AppError.constructor | backend/internal/errors/types.go:55-65 | a new error holds its code and message, no details and no metadata |
| ErrorTypes.AppError.Error | backend/internal/errors/types.go:68-73 | the error text starts with code and message, and differs from that prefix exactly when details are present |
| ErrorTypes.AppError.WithMetadata | backend/internal/errors/types.go:86-92 | the metadata map is created if missing, the key now maps to the value, every other key is kept, and the same error is returned for chaining |
| ErrorTypes.ValidationError.constructor | backend/internal/errors/types.go:113-116 | a new validation error wraps its base error and has no field map yet |
| ErrorTypes.ValidationError.AddFieldError | backend/internal/errors/types.go:124-129 | the field map is created if missing, the field now maps to the message, every other field is kept |
| ErrorMetricsModel.ErrorMetrics.constructor | backend/internal/errors/metrics.go:31-39 | all four counter maps start empty, the total is zero and the reset time is now |
| ErrorMetricsModel.ErrorMetrics.RecordError | backend/internal/errors/metrics.go:42-56 | a nil error changes nothing; otherwise the code, its category, its severity and its HTTP status are each counted once more and the total grows by one, keeping every map's sum equal to the total |
| ErrorMetricsModel.ErrorMetrics.Count | backend/internal/errors/metrics.go:51-55 | the four buckets are each incremented, a missing bucket starting at zero, and the total grows by one |
| ErrorMetricsModel.RecordKeepsTotals | backend/internal/errors/metrics.go:51-55 | incrementing one bucket in each map and the total keeps every map's sum equal to the total |
| ErrorMetricsModel.IncrementTotal | backend/internal/errors/metrics.go:52 | incrementing one bucket, missing or not, adds exactly one to the map's sum |
| ErrorMetricsModel.TotalRemove | backend/internal/errors/metrics.go:107-111 | a map's sum is one entry plus the sum of the rest |
| ErrorMetricsModel.ErrorMetrics.GetTotalErrors | backend/internal/errors/metrics.go:107-111 | the reported total equals the sum of the per-code counts and the sum of the per-status counts |
| ErrorMetricsModel.ErrorMetrics.Reset | backend/internal/errors/metrics.go:126-136 | all counter maps are emptied, the total is zero and the reset time is now |
| ErrorMetricsModel.ErrorMetrics.CountEntries | backend/internal/errors/metrics.go:146-154 | one entry per counted code, codes distinct, each with its recorded count |
| ErrorMetricsModel.ErrorMetrics.GetTopErrors | backend/internal/errors/metrics.go:139-180 | the result holds min(limit, codes) entries when the limit is positive (all of them otherwise), sorted by count descending, codes distinct and counted as recorded, and no omitted code has a larger count than any listed one |
| ErrorMetricsModel.BubbleSortByCount | backend/internal/errors/metrics.go:157-163 | the entries end sorted by count descending and are a permutation of the input |
| ErrorMetricsModel.BubblePass | backend/internal/errors/metrics.go:158-162 | one outer pass settles one more position at the tail and permutes the entries |
| ErrorMetricsModel.SwapIfSmaller | backend/internal/errors/metrics.go:159-161 | entries j and j+1 are swapped exactly when entry j counts fewer |
| ErrorMetricsModel.PassStepKeeps | backend/internal/errors/metrics.go:159-161 | a compare-and-swap moves the smallest so far one step right, keeps the settled tail, and permutes |
| ErrorMetricsModel.SettledAll | backend/internal/errors/metrics.go:157-163 | when the passes have settled every position the entries are sorted |
| ErrorMetricsModel.DistinctMultiplicity | backend/internal/errors/metrics.go:151-154 | with distinct codes every entry occurs at most once |
| ErrorMetricsModel.DuplicateMultiplicity | backend/internal/errors/metrics.go:157-163 | an entry at two positions occurs at least twice in the multiset |
| ErrorMetricsModel.PermutationKeepsDistinct | backend/internal/errors/metrics.go:157-163 | sorting entries read from a map keeps their codes distinct |
| ErrorMetricsModel.CodesMember | backend/internal/errors/metrics.go:151-154 | a code is among the entries' codes exactly when some entry carries it |
| ErrorMetricsModel.PermutationAgrees | backend/internal/errors/metrics.go:157-163 | every sorted entry still carries the count recorded for its code |
| ErrorMetricsModel.TopOfPermutation | backend/internal/errors/metrics.go:157-167 | a prefix of the sorted entries has distinct codes, recorded counts, and no omitted code with a larger count |
| ErrorMetricsModel.OmittedNotLarger | backend/internal/errors/metrics.go:157-167 | a code outside the kept prefix counts no more than any kept entry |
| EnhancedResponse.ErrorCodeFromStatus | backend/internal/api/enhanced_response.go:289-312 | every status maps to a declared error code |
| EnhancedResponse.StatusRoundTrip | backend/internal/api/enhanced_response.go:289-312 | for the eight statuses with their own code, the code maps back to the same status; 422 gives validation-failed (which maps to 400); any other status gives internal-server |
| EnhancedResponse.FindSubstring | backend/internal/api/enhanced_response.go:339-346 | true exactly when the pattern occurs at some position of the text |
| EnhancedResponse.ContainsStr | backend/internal/api/enhanced_response.go:335-337 | true exactly when the pattern occurs in the text (the length guard changes nothing) |
| EnhancedResponse.IsDatabaseError | backend/internal/api/enhanced_response.go:315-332 | a nil error is not a database error; otherwise it is exactly when its message contains one of the eleven database keywords |
| ErrorHandler.ContainsStr | backend/internal/middleware/error_handler.go:163-177 | the equal, prefix, suffix and middle checks together are true exactly when the pattern occurs in the text |
| ErrorHandler.IsBindingError | backend/internal/middleware/error_handler.go:147-160 | true exactly when the message contains one of the nine binding keywords |
| ErrorHandler.ConvertGenericError | backend/internal/middleware/error_handler.go:128-144 | EOF texts give invalid-input, "invalid character" gives invalid-format, any other message gives validation-failed exactly when it has a binding keyword and internal-server exactly when it has none |
| MemoryCacheModel.KeyWithPrefix | backend/internal/cache/memory.go:232-237 | the stored key starts with the prefix and what follows the prefix is the key |
| MemoryCacheModel.KeyWithPrefixInjective | backend/internal/cache/memory.go:232-237 | the stored key is always prefix plus key, so it starts with the prefix and two different keys never share a stored key |
| MemoryCacheModel.Pow256 | backend/internal/cache/memory.go:178-185 | the byte-place weight is positive |
| MemoryCacheModel.EncodeU | backend/internal/cache/memory.go:192-200 | the encoding of an unsigned value has exactly the requested number of bytes |
| MemoryCacheModel.DecodeU | backend/internal/cache/memory.go:178-185 | decoding n bytes gives a value below 256 to the n |
| MemoryCacheModel.DecodeEncodeU | backend/internal/cache/memory.go:178-200 | decoding the big-endian encoding of an in-range value gives it back |
| MemoryCacheModel.EncodeDecodeU | backend/internal/cache/memory.go:178-200 | encoding the decoded value of a byte string gives the same bytes back |
| MemoryCacheModel.DivMod256 | backend/internal/cache/memory.go:192-200 | splitting 256 times d plus a byte gives back d and the byte |
| MemoryCacheModel.EncodeInt64 | backend/internal/cache/memory.go:192-200 | a counter is stored as exactly 8 bytes |
| MemoryCacheModel.DecodeInt64 | backend/internal/cache/memory.go:177-186 | any 8 bytes decode to a signed 64-bit value |
| MemoryCacheModel.CounterRoundTrip | backend/internal/cache/memory.go:177-200 | the stored counter bytes and the 64-bit value are inverse: decode after encode and encode after decode are identities |
| MemoryCacheModel.OldestAsWritten | backend/internal/cache/memory.go:240-250 | as written, the scan's pick is a visited key with its expiry, and when no key is empty it picks one that expires no later than any visited key |
| MemoryCacheModel.EvictAsWritten | backend/internal/cache/memory.go:240-254 | as written, eviction only removes entries, and when no key is empty and every key is visited it removes exactly one oldest entry |
| MemoryCacheModel.EmptyKeyBlocksEviction | backend/internal/cache/memory.go:240-254 | as written, when the entry under the empty key expires first nothing is evicted, and a full single-entry cache then holds two entries after a Set |
| MemoryCacheModel.InsertSize | backend/internal/cache/memory.go:79-82 | storing under a key grows the map by one exactly when the key was absent |
| MemoryCacheModel.MemoryCache.constructor | backend/internal/cache/memory.go:25-39 | a new cache holds its configuration and no entries |
| MemoryCacheModel.MemoryCache.Get | backend/internal/cache/memory.go:42-63 | a value is returned exactly when its prefixed key is stored and not past its expiry, and it is the stored value; otherwise the error is "key not found" |
| MemoryCacheModel.MemoryCache.Exists | backend/internal/cache/memory.go:97-112 | a key exists exactly when Get would return it |
| MemoryCacheModel.MemoryCache.GetTTL | backend/internal/cache/memory.go:124-139 | the TTL is the positive time left until expiry; a missing key or one with no time left is "key not found" |
| MemoryCacheModel.MemoryCache.EvictOldest | backend/internal/cache/memory.go:240-254 | a non-empty cache loses exactly one entry, one that expires no later than any other; an empty cache is unchanged; the remaining entries are untouched |
| MemoryCacheModel.MemoryCache.Set | backend/internal/cache/memory.go:66-85 | the key now holds the value until now plus the expiration (the default TTL when not positive); below the limit nothing else changes; at the limit exactly one entry that expires no later than any other is evicted first, and no other entry changes; the cache never grows past the limit |
| MemoryCacheModel.MemoryCache.Delete | backend/internal/cache/memory.go:88-94 | exactly the prefixed key is removed |
| MemoryCacheModel.MemoryCache.Clear | backend/internal/cache/memory.go:115-121 | the cache is empty |
| MemoryCacheModel.MemoryCache.SetNX | backend/internal/cache/memory.go:142-164 | the value is stored, and true returned, exactly when the key is absent or no longer before its expiry; otherwise nothing changes |
| MemoryCacheModel.MemoryCache.Increment | backend/internal/cache/memory.go:167-208 | the new value is the live 8-byte counter (0 when absent, expired or not 8 bytes) plus delta with 64-bit wrap-around; it is stored as 8 bytes with the default TTL and reads back as the returned value |
| MemoryCacheModel.MemoryCache.CleanupExpired | backend/internal/cache/memory.go:269-279 | exactly the entries whose expiry is before now are removed |
| TokenBlacklistModel.SweepKeepsExactlyUnexpired | backend/internal/token/token_blacklist.go:61-72 | the sweep keeps exactly the tokens whose expiry is not before now, with their expiries, never grows the set, and a second sweep changes nothing |
| TokenBlacklistModel.SubsetCard | backend/internal/token/token_blacklist.go:67-71 | removing tokens never increases the count |
| TokenBlacklistModel.AddCount | backend/internal/token/token_blacklist_count.go:4-8 | after adding a token it is present with its expiry, and the count grows by one exactly when it was new |
| TokenBlacklistModel.TokenBlacklist.Count | backend/internal/token/token_blacklist_count.go:4-8 | the count of revoked tokens is zero exactly when none is listed |
| TokenBlacklistModel.TokenBlacklist.constructor | backend/internal/token/token_blacklist.go:17-28 | a new blacklist is empty and keeps the cleanup interval |
| TokenBlacklistModel.TokenBlacklist.Add | backend/internal/token/token_blacklist.go:31-43 | the token maps to the given expiry, is then blacklisted, and the count grows by one exactly when it was not already listed |
| TokenBlacklistModel.TokenBlacklist.IsBlacklisted | backend/internal/token/token_blacklist.go:38-43 | a blacklisted token is stored, so the blacklist is not empty |
| TokenBlacklistModel.TokenBlacklist.RemoveExpiredTokens | backend/internal/token/token_blacklist.go:61-72 | the blacklist becomes exactly the tokens whose expiry is not before now |
| AnalyzeCacheModel.CacheKeyUser | backend/internal/analyze/service.go:111-113 | the key starts with the user id in decimal, followed by the first colon |
| AnalyzeCacheModel.CacheKeyLevel | backend/internal/analyze/service.go:111-113 | when the level has no colon, the key ends with a colon and the level, and between the user id and that colon lies the text, so user, text and level can be read back |
| AnalyzeCacheModel.LiveExactly | backend/internal/analyze/service.go:151-155 | the first sweep keeps exactly the entries whose age is within the timeout, unchanged |
| AnalyzeCacheModel.RemoveCountBounds | backend/internal/analyze/service.go:171-174 | the number removed is a quarter of the entries rounded down, but at least one, and never more than there are |
| AnalyzeCacheModel.DistinctCard | backend/internal/analyze/service.go:165-168 | a list of distinct keys has as many elements as its set |
| AnalyzeCacheModel.ListingOfKeys | backend/internal/analyze/service.go:165-168 | a listing of the map's keys has distinct keys, all in the map, one per entry |
| AnalyzeCacheModel.DistinctPrefix | backend/internal/analyze/service.go:186-188 | a prefix of distinct keys is distinct |
| AnalyzeCacheModel.WithoutCard | backend/internal/analyze/service.go:186-188 | deleting a set of present keys shrinks the map by that many |
| AnalyzeCacheModel.WithoutOneMore | backend/internal/analyze/service.go:186-188 | deleting one more key is deleting it from what is left |
| AnalyzeCacheModel.PrefixSet | backend/internal/analyze/service.go:186-188 | the keys of a prefix one longer are the shorter prefix's keys plus the new one |
| AnalyzeCacheModel.DropOldestCount | backend/internal/analyze/service.go:186-188 | deleting the first r keys of a listing removes exactly r entries |
| AnalyzeCacheModel.DropOldestOrder | backend/internal/analyze/service.go:176-188 | after deleting a prefix of the oldest-first listing, no deleted entry is newer than a kept one |
| AnalyzeCacheModel.AnalyzeService.constructor | backend/internal/analyze/service.go:37-63 | a new service has an empty cache, a 10-minute timeout and room for 1000 results |
| AnalyzeCacheModel.AnalyzeService.GetCachedResult | backend/internal/analyze/service.go:116-133 | a result is returned exactly when the key is cached and not older than the timeout, leaving the cache as it was; an expired entry is deleted and nothing returned |
| AnalyzeCacheModel.AnalyzeService.SetCachedResult | backend/internal/analyze/service.go:136-146 | the key now maps to the result; below the limit nothing else changes; at the limit the cache is first cleaned as CleanupCache promises and then the key is set |
| AnalyzeCacheModel.AnalyzeService.CleanupCache | backend/internal/analyze/service.go:149-190 | expired entries go; if the live entries still fill the cache, a quarter of them (at least one) are removed and none removed is newer than one kept; kept entries are unchanged |
| AnalyzeCacheModel.AnalyzeService.RemoveExpired | backend/internal/analyze/service.go:150-155 | the cache becomes exactly the entries within the timeout |
| AnalyzeCacheModel.AnalyzeService.ClearCache | backend/internal/analyze/service.go:393-399 | the cache is empty |
| AnalyzeCacheModel.KeysOf | backend/internal/analyze/service.go:165-168 | the new array lists exactly the map's keys |
| AnalyzeCacheModel.SwapIfNewer | backend/internal/analyze/service.go:179-181 | after the step position i is no newer than j, the two cells are exchanged or kept, and the rest is untouched |
| AnalyzeCacheModel.SortOldestFirst | backend/internal/analyze/service.go:177-183 | the keys end ordered oldest first and are a permutation of the input |
| Alerts.Fires | backend/internal/monitoring/alerts.go:192-207 | a firing needs the threshold reached, and a rule that reaches it and has never fired fires |
| Alerts.AlertId | backend/internal/monitoring/alerts.go:210 | an alert id is the rule name, an underscore and the decimal seconds |
| Alerts.EffectiveCooldown | backend/internal/monitoring/alerts.go:198-201 | a rule's own cooldown applies unless it is zero, in which case the configured default applies |
| Alerts.AppendBounded | backend/internal/monitoring/alerts.go:235-241 | the new alert is appended as the last element; below the history limit nothing is dropped, otherwise only the oldest is dropped, so a history within the limit stays within it |
| Alerts.RecentHistory | backend/internal/monitoring/alerts.go:296-313 | the result is the last limit alerts in order (all of them when the limit is not positive or too large) |
| Alerts.RecentHistoryNested | backend/internal/monitoring/alerts.go:300-310 | taking the recent history of a recent history is taking the smaller recent history at once |
| Alerts.NoFireBelowThreshold | backend/internal/monitoring/alerts.go:190-195 | a failure count below the rule's threshold never fires |
| Alerts.NoFireWithinCooldown | backend/internal/monitoring/alerts.go:198-207 | an alert never fires again before the effective cooldown since the last one has passed |
| Alerts.AlertManager.constructor | backend/internal/monitoring/alerts.go:109-134 | a new manager has no rules, alerts, history, counts or alert times, and uses the given configuration or the default one |
| Alerts.AlertManager.RegisterRule | backend/internal/monitoring/alerts.go:145-151 | the rule is stored under its name, replacing any earlier one |
| Alerts.AlertManager.UnregisterRule | backend/internal/monitoring/alerts.go:154-162 | the rule, its failure count and its last alert time are removed |
| Alerts.AlertManager.HandleAlertTriggered | backend/internal/monitoring/alerts.go:185-251 | the failure count grows by one; if the threshold is not met or the cooldown has not passed nothing else changes; otherwise a new alert gets the id of the rule name and the time, the rule's level, the message, the time as timestamp and count 1, while an existing one keeps its id, level and timestamp, has its count grown by one, its last firing set to now and the new message; the alert time is now, and a copy is appended to the bounded history |
| Alerts.AlertManager.HandleAlertResolved | backend/internal/monitoring/alerts.go:254-279 | the failure count is reset to zero and the rule's active alert is removed |
| Alerts.AlertManager.GetAlertHistory | backend/internal/monitoring/alerts.go:296-313 | the result is the last limit alerts of the history, in order: all of them when the limit is not positive or too large |
| ErrorWindowModel.LeadingBefore | backend/internal/monitoring/metrics.go:300-305 | the scan stops at the first error not before the cutoff: every error it skips is older than the cutoff |
| ErrorWindowModel.LeadingBeforeUnique | backend/internal/monitoring/metrics.go:300-305 | any index with that stopping property is the one the scan finds |
| ErrorWindowModel.TrimSortedKeepsWindow | backend/internal/monitoring/metrics.go:300-309 | on a time-ordered window, what remains is ordered and holds exactly the errors at or after the cutoff |
| ErrorWindowModel.AppendLatestSorted | backend/internal/monitoring/metrics.go:276-277 | appending the current time to a window of earlier times keeps it ordered |
| ErrorWindowModel.TrimIdempotent | backend/internal/monitoring/metrics.go:300-309 | trimming a trimmed window removes nothing more |
| ErrorWindowModel.ErrorWindow.constructor | backend/internal/monitoring/metrics.go:264-269 | a new window holds no errors and keeps its length |
| ErrorWindowModel.ErrorWindow.CleanOldErrors | backend/internal/monitoring/metrics.go:300-309 | the leading errors before now minus the window are dropped and the rest kept |
| ErrorWindowModel.ErrorWindow.AddError | backend/internal/monitoring/metrics.go:272-281 | now is appended and the window trimmed; with a non-negative window now is the last error kept |
| ErrorWindowModel.ErrorWindow.GetErrorRate | backend/internal/monitoring/metrics.go:284-298 | after trimming, an empty window gives rate 0, otherwise the count divided by the window in minutes; a zero-length window with errors has no finite rate |
| Health.DatabaseStatus | backend/internal/monitoring/health.go:71-110 | a failed ping is down; otherwise the pool is a warning exactly when open connections reach the maximum minus one, and up below that |
| Health.CacheStatus | backend/internal/monitoring/health.go:132-187 | the cache is down exactly when it is not initialised or the test write fails, up exactly when the read returns what was written, and never unknown |
| Health.ExternalStatus | backend/internal/monitoring/health.go:221-243 | a failed request is down; a 2xx response is up, 5xx and above is down, everything else is a warning |
| Health.CheckComponent | backend/internal/monitoring/health.go:350-370 | with caching on, a stored result younger than the maximum age is answered and nothing changes; otherwise the probe's result is answered and, exactly when caching is on, stored under the component's name |
| Health.CachedResultExpires | backend/internal/monitoring/health.go:356 | a stored result that has reached the maximum age is no longer used: the probe answers and replaces it |
| Health.CountStatus | backend/internal/monitoring/health.go:394-405 | the number of the first n results with a status is at most n |
| Health.CountPositive | backend/internal/monitoring/health.go:394-405 | the count of a status is positive exactly when some result has that status |
| Health.CountsPartition | backend/internal/monitoring/health.go:394-405 | the up, down, warning and unknown counts add up to the number of results |
| Health.OverallStatus | backend/internal/monitoring/health.go:333-337 | overall down exactly when some component is down, warning exactly when none is down and one is a warning, up exactly when neither occurs (so with no checkers it is up) |
| Health.ComponentsOfKeys | backend/internal/monitoring/health.go:394-395 | with distinct names the component map has one entry per result, each named by a result |
| Health.ComponentsOfValues | backend/internal/monitoring/health.go:394-395 | every result is stored under its name |
| Health.Percentage | backend/internal/monitoring/health.go:422 | the health percentage is the up count as a percentage of the total, between 0 and 100 when the up count does not exceed the total |
| Health.Aggregate | backend/internal/monitoring/health.go:317-425 | the overall status, the up, down and warning counts, the component map, its size as total and the up percentage are those of the results |
| AdvancedHealth.Fail | backend/internal/monitoring/advanced_health.go:606-616 | a failure adds one to the count and records now; the breaker opens exactly when the count reaches the maximum, and otherwise keeps its state |
| AdvancedHealth.FailTimesCount | backend/internal/monitoring/advanced_health.go:610 | k failures in a row add k to the count |
| AdvancedHealth.ConsecutiveFailuresOpen | backend/internal/monitoring/advanced_health.go:610-615 | at least maxFailures failures in a row leave the breaker open |
| AdvancedHealth.FailKeepsOk | backend/internal/monitoring/advanced_health.go:606-616 | a failure keeps the breaker consistent: whenever the count reaches the maximum it is open |
| AdvancedHealth.CircuitBreaker.constructor | backend/internal/monitoring/advanced_health.go:570-577 | a new breaker is closed with no failures and keeps its name, maximum and reset timeout |
| AdvancedHealth.CircuitBreaker.CanExecute | backend/internal/monitoring/advanced_health.go:579-596 | a call is allowed exactly when the breaker is not open or the reset timeout has passed since the last failure; in that last case it becomes half-open |
| AdvancedHealth.CircuitBreaker.RecordSuccess | backend/internal/monitoring/advanced_health.go:598-604 | the failure count is zero and the breaker closed |
| AdvancedHealth.CircuitBreaker.RecordFailure | backend/internal/monitoring/advanced_health.go:606-616 | the breaker's new state is Fail of its old state |
| AdvancedHealth.DependencyGraph.constructor | backend/internal/monitoring/advanced_health.go:539-544 | a new graph has no nodes and no edges |
| AdvancedHealth.DependencyGraph.AddNode | backend/internal/monitoring/advanced_health.go:546-558 | the node is stored up, updated now, with its dependencies and no dependents, and its edges are its dependencies |
| AdvancedHealth.DependencyGraph.UpdateNodeStatus | backend/internal/monitoring/advanced_health.go:560-568 | a known node gets the new status and time; an unknown name changes nothing; no node is added |
| AdvancedHealth.NotUpCount | backend/internal/monitoring/advanced_health.go:639-643 | counting snapshots that are not up over n snapshots gives at most n |
| AdvancedHealth.RecentFailures | backend/internal/monitoring/advanced_health.go:638-643 | at most 10 of the last 10 snapshots are failures |
| AdvancedHealth.CountRecentFailures | backend/internal/monitoring/advanced_health.go:638-643 | the loop counts exactly the non-up snapshots among the last ten |
| AdvancedHealth.IssueFor | backend/internal/monitoring/advanced_health.go:645-653 | a predicted issue names its component and has a probability between 0 and 1 |
| AdvancedHealth.IssueComponentsMembers | backend/internal/monitoring/advanced_health.go:635-656 | a component is among the issues' components exactly when some issue names it |
| AdvancedHealth.PredictedAdd | backend/internal/monitoring/advanced_health.go:645-654 | appending the issue of a flagged component keeps the prediction invariant |
| AdvancedHealth.PredictedSkip | backend/internal/monitoring/advanced_health.go:636-645 | skipping an unflagged component keeps the prediction invariant |
| AdvancedHealth.PredictOne | backend/internal/monitoring/advanced_health.go:636-655 | handling one component extends the invariant to it |
| AdvancedHealth.PredictedAll | backend/internal/monitoring/advanced_health.go:631-659 | once every component is handled, the issues are well-formed, name components without repetition, and name exactly those with at least ten snapshots and three recent failures |
| AdvancedHealth.PredictIssues | backend/internal/monitoring/advanced_health.go:631-659 | exactly the components with at least ten snapshots and at least three non-up among the last ten get an issue, one each, with probability failures over ten and medium impact |
| AdvancedHealth.StatusWeight | backend/internal/monitoring/advanced_health.go:400-409 | a component's weight lies between 0 and 100 |
| AdvancedHealth.ImpactMultiplier | backend/internal/monitoring/advanced_health.go:413-421 | the impact multiplier lies between 1 and 3 |
| AdvancedHealth.ComponentScore | backend/internal/monitoring/advanced_health.go:400-409 | the component part of the score is never negative |
| AdvancedHealth.Impact | backend/internal/monitoring/advanced_health.go:422 | an issue with non-negative probability adds a non-negative amount |
| AdvancedHealth.IssueScoreNonNegative | backend/internal/monitoring/advanced_health.go:412-423 | with non-negative probabilities the issue part of the score is never negative |
| AdvancedHealth.CalculateRiskScore | backend/internal/monitoring/advanced_health.go:391-432 | with no components the risk is 0; otherwise it is the summed component and issue score per component, capped at 100 |
| AdvancedHealth.RiskNonNegative | backend/internal/monitoring/advanced_health.go:391-432 | with non-negative probabilities the risk is never negative |
| PoolManager.WithDefaults | backend/internal/performance/connection_pool_manager.go:91-105 | each zero setting becomes its default (30 s interval, 24 h retention, 80 and 30 percent thresholds, step 5) and every other setting is kept |
| PoolManager.WithDefaultsIdempotent | backend/internal/performance/connection_pool_manager.go:91-105 | after defaulting no setting is zero, so defaulting again changes nothing |
| PoolManager.UsagePercent | backend/internal/performance/connection_pool_manager.go:159-162 | usage is 0 when the pool has no maximum; otherwise it is the in-use connections as a percentage of the maximum, between 0 and 100 when they do not exceed it |
| PoolManager.RatioBound | backend/internal/performance/connection_pool_manager.go:161 | a non-negative part of a positive whole gives a ratio between 0 and 1 |
| PoolManager.Samples | backend/internal/performance/connection_pool_manager.go:179-183 | the rolling average uses the last ten samples, or all when fewer, and at least one when there are any |
| PoolManager.SumFromBounds | backend/internal/performance/connection_pool_manager.go:185-188 | the sum of usages within bounds lies between count times the lower and count times the upper bound |
| PoolManager.MeanBetween | backend/internal/performance/connection_pool_manager.go:189 | dividing such a sum by the count gives a value within the bounds |
| PoolManager.RecentMeanWithin | backend/internal/performance/connection_pool_manager.go:178-190 | when all usages lie within bounds, so does the rolling average |
| PoolManager.KeepFrom | backend/internal/performance/connection_pool_manager.go:197-213 | the index kept from is the first snapshot after the cutoff, every snapshot before it is not after the cutoff, and it is 0 when no snapshot is after the cutoff |
| PoolManager.FirstAfter | backend/internal/performance/connection_pool_manager.go:202-207 | the scan from i stops at the first snapshot after the cutoff, or at the end |
| PoolManager.TrimKeepsExactlyRecent | backend/internal/performance/connection_pool_manager.go:197-213 | on a time-ordered history with a recent last snapshot, the trim drops exactly the snapshots not after the cutoff |
| PoolManager.TrimKeepsAllWhenNoneRecent | backend/internal/performance/connection_pool_manager.go:201-212 | when no snapshot is after the cutoff nothing is dropped |
| PoolManager.CollectedHistoryRecent | backend/internal/performance/connection_pool_manager.go:171-193 | with positive retention the new snapshot survives the trim as the last entry and every kept snapshot is within retention |
| PoolManager.ScaleUpTarget | backend/internal/performance/connection_pool_manager.go:233-236 | the new maximum is the old plus the step, capped at the configured ceiling |
| PoolManager.ScaleDownTarget | backend/internal/performance/connection_pool_manager.go:243-246 | the new maximum is the old minus the step, floored at the configured minimum |
| PoolManager.ScaleTargetsMove | backend/internal/performance/connection_pool_manager.go:232-249 | with a positive step, scaling up strictly grows a maximum below the ceiling and scaling down strictly shrinks one above the floor, both staying within the limits |
| PoolManager.IdleFor | backend/internal/performance/connection_pool_manager.go:261-264 | idle connections are a third of the open maximum rounded down, but at least 5 |
| PoolManager.IdleWithinOpen | backend/internal/performance/connection_pool_manager.go:261-264 | with an open maximum of at least 5 the idle limit never exceeds it |
| PoolManager.BothDirectionsNeedInvertedThresholds | backend/internal/performance/connection_pool_manager.go:232-249 | one check can scale both up and down only when the up threshold is below the down threshold |
| PoolManager.Poll | backend/internal/performance/connection_pool_manager.go:388-392 | an open breaker past the reset timeout becomes half-open with its failures reset; anything else is unchanged |
| PoolManager.Failure | backend/internal/performance/connection_pool_manager.go:402-408 | a failure adds one and records now; the breaker opens once failures reach ten |
| PoolManager.Success | backend/internal/performance/connection_pool_manager.go:416-420 | a half-open breaker closes with no failures; any other is unchanged |
| PoolManager.TransitionsKeepOk | backend/internal/performance/connection_pool_manager.go:383-421 | the three transitions keep the breaker consistent |
| PoolManager.SuccessWhileClosedKeepsCount | backend/internal/performance/connection_pool_manager.go:416-420 | a success while closed does not reset the failure count |
| PoolManager.OpenNeedsPollToClose | backend/internal/performance/connection_pool_manager.go:388-420 | a success cannot close an open breaker; after the reset timeout a poll then a success closes it |
| PoolManager.TenFailuresOpen | backend/internal/performance/connection_pool_manager.go:402-408 | from a fresh breaker, k failures count k and the breaker is open exactly when k reaches ten |
| PoolManager.ConnectionPoolManager.constructor | backend/internal/performance/connection_pool_manager.go:90-130 | a new manager holds the defaulted configuration, empty histories, zero statistics, auto-scaling on and a closed breaker |
| PoolManager.ConnectionPoolManager.CollectStats | backend/internal/performance/connection_pool_manager.go:152-194 | the snapshot is appended, the peak usage raised to it when larger, the average set to the mean of the last ten, and the history trimmed to retention |
| PoolManager.ConnectionPoolManager.CleanOldStats | backend/internal/performance/connection_pool_manager.go:197-213 | the history drops the snapshots before the first one after the cutoff |
| PoolManager.ConnectionPoolManager.Scale | backend/internal/performance/connection_pool_manager.go:253-316 | the open maximum is set, the idle maximum follows it, one event with old and new maxima and the reason is appended, and the event count and time updated |
| PoolManager.ConnectionPoolManager.CheckAndScale | backend/internal/performance/connection_pool_manager.go:216-316 | with auto-scaling off or within two minutes of the last event nothing changes; otherwise the pool scales up by the step, capped at the ceiling, when average usage is above the up threshold and the maximum is below the ceiling, and down by the step, floored at the minimum, when below the down threshold and above the floor; each resize records an event with its old and new maximum and reason, counts it, stamps the time and sets the idle limit to a third of the new maximum but at least 5 |
| PoolManager.ConnectionPoolManager.SetAutoScaling | backend/internal/performance/connection_pool_manager.go:377-380 | auto-scaling takes the given value |
| PoolManager.ConnectionPoolManager.IsCircuitBreakerOpen | backend/internal/performance/connection_pool_manager.go:383-395 | the breaker is polled and the result is whether it is then open; by the kept invariant an open breaker has counted at least ten failures |
| PoolManager.ConnectionPoolManager.RecordFailure | backend/internal/performance/connection_pool_manager.go:398-409 | the breaker takes the Failure transition |
| PoolManager.ConnectionPoolManager.RecordSuccess | backend/internal/performance/connection_pool_manager.go:412-421 | the breaker takes the Success transition |
| PoolManager.ConnectionPoolManager.ResetStats | backend/internal/performance/connection_pool_manager.go:430-458 | usage, events and histories are zeroed and the breaker closed with no failures |
| SimpleMonitor.Ext | backend/internal/backup/simple_monitor.go:163 | the extension of a file name is empty or a final dot-suffix of the name containing no further dot or slash |
| SimpleMonitor.ExtBefore | backend/internal/backup/simple_monitor.go:163 | the backwards scan for the extension yields empty or a dot-suffix of the name with no further dot or slash |
| SimpleMonitor.ExtOfName | backend/internal/backup/simple_monitor.go:163-166 | a name ending in a dot-extension without further dots or slashes has exactly that extension, so "x.sql" is a backup file |
| SimpleMonitor.ExtScan | backend/internal/backup/simple_monitor.go:163 | the scan finds the last dot when no slash or dot follows it |
| SimpleMonitor.CountBackups | backend/internal/backup/simple_monitor.go:157-178 | the backup count never exceeds the number of directory entries |
| SimpleMonitor.Latest | backend/internal/backup/simple_monitor.go:173-176 | the last backup time is the zero time or the modification time of a counted backup file |
| SimpleMonitor.LatestIsMax | backend/internal/backup/simple_monitor.go:173-176 | no counted backup file is newer than the last backup time |
| SimpleMonitor.PrefixStep | backend/internal/backup/simple_monitor.go:157 | extending the scanned prefix by one entry appends that entry |
| SimpleMonitor.ScanBackupDirectory | backend/internal/backup/simple_monitor.go:145-181 | a missing directory gives zero statistics, an unreadable one an error, and otherwise the count, total size and latest time of the regular .sql, .gz and .enc files whose info can be read |
| SimpleMonitor.CheckRecentBackup | backend/internal/backup/simple_monitor.go:204-224 | an unreadable directory has no recent backup; otherwise there is one exactly when some regular backup file was modified within the last 25 hours |
| SimpleMonitor.RecentMeansLatestRecent | backend/internal/backup/simple_monitor.go:173-176 | if some backup file is recent then the last backup time is recent too |
| SimpleMonitor.Worst | backend/internal/backup/simple_monitor.go:102-131 | the worse of two levels is one of them and ranks as the higher |
| SimpleMonitor.Escalate | backend/internal/backup/simple_monitor.go:118-120 | escalating never lowers the overall level |
| SimpleMonitor.EscalateIsWorst | backend/internal/backup/simple_monitor.go:106-130 | the source's escalation (critical always, warning only over healthy) is taking the worse level |
| SimpleMonitor.CalculateDiskUsage | backend/internal/backup/simple_monitor.go:191-201 | the fixed estimate is 50 percent used with half the space free |
| SimpleMonitor.DiskLevel | backend/internal/backup/simple_monitor.go:111-121 | disk usage above 95 percent is critical, above 85 up to 95 a warning, otherwise healthy |
| SimpleMonitor.FixedDiskIsHealthy | backend/internal/backup/simple_monitor.go:110-121 | with the fixed estimate the disk check is always healthy |
| SimpleMonitor.DiskIssues | backend/internal/backup/simple_monitor.go:111-119 | a disk reading raises one issue exactly when its level is not healthy |
| SimpleMonitor.CheckHealth | backend/internal/backup/simple_monitor.go:89-134 | the directory is critical exactly when not accessible, the disk graded by usage, the recent-backup check a warning exactly when none is found, the overall level the worst of the three; the issues are, in this order, the directory issue, the disk issue and the missing-backup issue, each exactly when its check is not healthy |
| SimpleMonitor.SimpleBackupMonitor.constructor | backend/internal/backup/simple_monitor.go:44-49 | a new monitor has zero metrics and no check yet |
| SimpleMonitor.SimpleBackupMonitor.UpdateMetrics | backend/internal/backup/simple_monitor.go:52-76 | a failed scan changes nothing; otherwise the metrics take the scan's count, size and latest time, the disk estimate and now |
| BackupScheduler.DefaultSchedules | backend/internal/scheduler/enhanced_backup_scheduler.go:80-119 | exactly the daily, weekly and monthly schedules exist, each named by its key and enabled exactly when automatic backups are |
| BackupScheduler.NewSchedule | backend/internal/scheduler/enhanced_backup_scheduler.go:185-200 | a new schedule is named by its id, enabled, kept 720 hours, and runs at the parsed interval or every 24 hours when the text does not parse |
| BackupScheduler.Enabled | backend/internal/scheduler/enhanced_backup_scheduler.go:463-471 | the enabled view holds exactly the enabled schedules, unchanged |
| BackupScheduler.EnabledCard | backend/internal/scheduler/enhanced_backup_scheduler.go:463-471 | there are never more enabled schedules than schedules |
| BackupScheduler.Appended | backend/internal/scheduler/enhanced_backup_scheduler.go:474-484 | the new item is the last of the history, a history of at most 100 stays at most 100, and only the oldest can be dropped |
| BackupScheduler.AppendedKeepsNewest | backend/internal/scheduler/enhanced_backup_scheduler.go:478-483 | appending to a full history drops exactly the oldest item |
| BackupScheduler.Count | backend/internal/scheduler/enhanced_backup_scheduler.go:226-228 | a limit within the history is taken as is; a non-positive or too large limit means the whole history |
| BackupScheduler.Chronological | backend/internal/scheduler/enhanced_backup_scheduler.go:504-519 | the chronological view is the last limit items in order |
| BackupScheduler.ViewsAreReverses | backend/internal/scheduler/enhanced_backup_scheduler.go:222-237 | the newest-first view is the reverse of the chronological view for the same limit |
| BackupScheduler.IsDayOfWeek | backend/internal/scheduler/enhanced_backup_scheduler.go:378-395 | an unknown day name matches every day; a known one matches exactly its weekday |
| BackupScheduler.KnownDayPicksOne | backend/internal/scheduler/enhanced_backup_scheduler.go:389-394 | each known day name matches exactly one weekday |
| BackupScheduler.EnhancedBackupScheduler.constructor | backend/internal/scheduler/enhanced_backup_scheduler.go:58-77 | a new scheduler is stopped with an open stop channel, has no history and holds the three default schedules |
| BackupScheduler.EnhancedBackupScheduler.Start | backend/internal/scheduler/enhanced_backup_scheduler.go:122-155 | the corrected start of the Findings row: starting a running scheduler is an error; otherwise it succeeds and runs exactly when backups and automatic backups are both enabled, with a new open stop channel |
| BackupScheduler.EnhancedBackupScheduler.Stop | backend/internal/scheduler/enhanced_backup_scheduler.go:240-263 | stopping a scheduler that is not running is an error; stopping a running one closes its stop channel, never panics because that channel is still open, and leaves it stopped |
| BackupScheduler.StartAsWritten | backend/internal/scheduler/enhanced_backup_scheduler.go:122-136 | as written, starting sets the running flag but keeps the stop channel the constructor made, closed or not |
| BackupScheduler.StopAsWritten | backend/internal/scheduler/enhanced_backup_scheduler.go:240-263 | a stopped scheduler is refused and unchanged; a running one with an open channel stops and its channel is closed; a running one whose channel is already closed panics and stays running |
| BackupScheduler.RestartedStopPanics | backend/internal/scheduler/enhanced_backup_scheduler.go:66 | as written, Start, Stop, Start, Stop: the first Stop succeeds and the second panics, leaving the scheduler marked running (see Findings) |
| BackupScheduler.StartFresh | backend/internal/scheduler/enhanced_backup_scheduler.go:122-136 | the intended start: a running or disabled scheduler is unchanged, otherwise it runs with an open stop channel |
| BackupScheduler.StopNeverPanics | backend/internal/scheduler/enhanced_backup_scheduler.go:240-263 | with the intended start, after any sequence of Start and Stop calls a running scheduler's channel is open and Stop does not panic |
| BackupScheduler.EnhancedBackupScheduler.AddSchedule | backend/internal/scheduler/enhanced_backup_scheduler.go:177-205 | an existing id is an error and changes nothing; a new id is added as NewSchedule and nothing else changes |
| BackupScheduler.EnhancedBackupScheduler.RemoveSchedule | backend/internal/scheduler/enhanced_backup_scheduler.go:208-219 | an unknown id is an error and changes nothing; a known one is removed |
| BackupScheduler.EnhancedBackupScheduler.AddToHistory | backend/internal/scheduler/enhanced_backup_scheduler.go:474-484 | the history becomes Appended of the old history and the item, so it never exceeds 100 |
| BackupScheduler.EnhancedBackupScheduler.ExecuteScheduledBackup | backend/internal/scheduler/enhanced_backup_scheduler.go:294-332 | a successful backup updates the last backup time and records file and size; a failure records the error; either way one item is appended to the bounded history |
| BackupScheduler.EnhancedBackupScheduler.GetBackupHistory | backend/internal/scheduler/enhanced_backup_scheduler.go:222-237 | the result holds Count items, newest first |
| BackupScheduler.EnhancedBackupScheduler.GetHistory | backend/internal/scheduler/enhanced_backup_scheduler.go:504-519 | the result is the chronological view of the last limit items |
| BackupScheduler.EnhancedBackupScheduler.ActiveSchedules | backend/internal/scheduler/enhanced_backup_scheduler.go:495 | the number of active schedules never exceeds the number of schedules |
| I18nModel.ParseLanguageFromHeader | backend/internal/i18n/i18n.go:161-185 | the result is always a supported language, and an empty header gives the default |
| I18nModel.HeaderLanguageIsPrefix | backend/internal/i18n/i18n.go:161-185 | the header gives Vietnamese exactly when it starts with "vi", and English otherwise (the exact-match cases agree with the two-letter prefix) |
| I18nModel.I18n.constructor | backend/internal/i18n/i18n.go:53-70 | a new store holds the English and Vietnamese default messages, each overridden by its language's message file when that file decodes, no messages for any other language, falls back to the default language and supports exactly English and Vietnamese |
| I18nModel.I18n.IsSupported | backend/internal/i18n/i18n.go:73-77 | a language is supported exactly when it is English or Vietnamese |
| I18nModel.I18n.SetFallbackLanguage | backend/internal/i18n/i18n.go:80-84 | the fallback language takes the given value |
| I18nModel.I18n.GetMessage | backend/internal/i18n/i18n.go:112-143 | the message in the requested language when it has the key; otherwise, for another language, the fallback language's message when that has the key; otherwise the key itself |
| I18nModel.I18n.AddMessage | backend/internal/i18n/i18n.go:87-95 | the language's map is created if missing and the key now maps to the message, which GetMessage then returns |
| I18nModel.AddMessageKeepsOthers | backend/internal/i18n/i18n.go:87-95 | adding one message changes no other language and no other key |
| I18nModel.I18n.AddMessages | backend/internal/i18n/i18n.go:98-109 | the language's map becomes its old map overridden by the added messages |
| I18nModel.Restrict | backend/internal/i18n/i18n.go:106-108 | restricting a map to some keys keeps exactly those present, with their values |
| I18nModel.RestrictAdd | backend/internal/i18n/i18n.go:106-108 | widening the restriction by one present key adds exactly that entry |
| I18nModel.RestrictAll | backend/internal/i18n/i18n.go:106-108 | restricting to all of a map's keys gives the map back |
| I18nModel.UnionUpdate | backend/internal/i18n/i18n.go:106-108 | setting a key after a merge equals merging the set map |
| I18nModel.I18n.LoadMessagesFromFiles | backend/internal/i18n/i18n.go:188-215 | each supported language whose file loads gets its messages merged in; languages whose file fails, and unsupported ones, keep their messages |
| I18nMiddleware.Normalize | backend/internal/i18n/middleware.go:60 | the normalised value is no longer than the input, has no white space at either end and is already lower-case |
| I18nMiddleware.ParseLanguageParam | backend/internal/i18n/middleware.go:59-70 | the result is supported; it is Vietnamese exactly when the trimmed lower-case value is one of the Vietnamese aliases; an unknown value gives the default |
| I18nMiddleware.ParseIgnoresCaseAndSpace | backend/internal/i18n/middleware.go:60 | values that trim and lower-case alike parse alike |
| I18nMiddleware.CapitalisedVietnameseAlias | backend/internal/i18n/middleware.go:60-63 | the padded capitalised alias " TIẾNG-VIỆT " parses to Vietnamese |
| I18nMiddleware.TrimPaddedAlias | backend/internal/i18n/middleware.go:60 | trimming strips the spaces around " TIẾNG-VIỆT " |
| I18nMiddleware.LowerCapitalisedAlias | backend/internal/i18n/middleware.go:60 | lower-casing "TIẾNG-VIỆT" gives the listed alias "tiếng-việt" |
| I18nMiddleware.DetectLanguageAsWritten | backend/internal/i18n/middleware.go:26-56 | as written, the detected language is always supported |
| I18nMiddleware.FirstNonEmptySourceDecides | backend/internal/i18n/middleware.go:33-52 | as written, a non-empty query parameter decides alone, then a non-empty X-Language header, then Accept-Language, because every parse result is supported |
| I18nMiddleware.UnrecognisedQueryHidesHeader | backend/internal/i18n/middleware.go:33-45 | as written, an unrecognised query value "fr" yields English even though X-Language asks for Vietnamese |
| I18nMiddleware.ParseLanguageParamOpt | backend/internal/i18n/middleware.go:59-70 | a value is recognised exactly when it is one of the aliases, and then parses as ParseLanguageParam |
| I18nMiddleware.HeaderLanguageOpt | backend/internal/i18n/i18n.go:161-185 | an Accept-Language value is recognised exactly when it starts with "vi" or "en", and then parses as ParseLanguageFromHeader |
| I18nMiddleware.DetectLanguage | backend/internal/i18n/middleware.go:26-56 | the corrected detection of the Findings row (the code as written is `I18nMiddleware.DetectLanguageAsWritten`): the first recognised source among the query parameter, X-Language and Accept-Language decides, and the default applies when none is recognised |
| I18nMiddleware.DetectAgreesOnRecognisedValues | backend/internal/i18n/middleware.go:26-56 | when every non-empty query and X-Language value is recognised, the corrected detection agrees with the code as written |
| Validation.PasswordClass | backend/internal/util/validation.go:23-33 | each character falls in the upper, lower, digit or punctuation-or-symbol class exactly when it is such an ASCII character |
| Validation.IsStrongPassword | backend/internal/util/validation.go:17-37 | a password is strong exactly when it has at least 8 bytes and an upper-case letter, a lower-case letter, a digit and a punctuation or symbol character |
| Validation.ShortPasswordIsWeak | backend/internal/util/validation.go:18-20 | a password under 8 bytes is never strong |
| Validation.SanitizeName | backend/internal/util/validation.go:40-44 | the result keeps only letters, digits, underscores and white space, is no longer than the input, and leaves a clean name unchanged |
| Validation.SanitizeIdempotent | backend/internal/util/validation.go:40-44 | sanitising twice is sanitising once |
| Validation.SanitizeAppend | backend/internal/util/validation.go:42-43 | sanitising a concatenation concatenates the sanitised parts |
| Validation.IsValidEmail | backend/internal/util/validation.go:9-14 | an accepted address matches the pattern: a local part before the first at sign, then domain characters, a dot and at least two letters |
| Validation.IsValidEmailMatchesPattern | backend/internal/util/validation.go:9-14 | the decision procedure accepts exactly the addresses the pattern describes: a non-empty local part, an at sign, a domain, a dot and at least two letters |
| Validation.EmailShapeDecided | backend/internal/util/validation.go:9-14 | any address built from a local part, an at sign, a domain part and a final dot with two or more letters is accepted |
| Validation.FirstAtIs | backend/internal/util/validation.go:11 | the at sign after an at-free local part is the first one |
| Validation.LastDotIs | backend/internal/util/validation.go:11 | the dot before a run of letters at the end is the last one |
| Validation.LastIndexIs | backend/internal/util/validation.go:11 | a character not repeated after position d has its last occurrence at d |
| Secrets.SecretClass | backend/internal/security/secrets.go:246-257 | every character falls in a class: ASCII upper, lower or digit exactly as such, and anything else special |
| Secrets.SecretVerdict | backend/internal/security/secrets.go:236-264 | no error exactly when the secret is strong; a secret under 16 bytes gets the length error |
| Secrets.ValidateSecretStrength | backend/internal/security/secrets.go:236-264 | the loop returns the verdict: the length error under 16 bytes, the class error when a class is missing, and none otherwise |
| Secrets.AcceptedSecretIsStrongPassword | backend/internal/security/secrets.go:236-264 | an accepted secret whose special characters are ASCII punctuation or symbols also passes the password check |
| Secrets.SpaceCountsOnlyForSecrets | backend/internal/security/secrets.go:254-255 | a space is special for the secret check but no class at all for the password check |
| Secrets.RotationManager.constructor | backend/internal/security/secrets.go:173-179 | a new manager keeps its configuration and has no metadata |
| Secrets.RotationManager.ShouldRotate | backend/internal/security/secrets.go:182-193 | rotation is never due when disabled, always due for an unknown key, and otherwise due exactly when more than the interval has passed since the last rotation |
| Secrets.RotatedNotDueWithinInterval | backend/internal/security/secrets.go:182-214 | a key rotated at some time is not due again within the interval |
| Secrets.RotationManager.RotateSecret | backend/internal/security/secrets.go:196-224 | a failed encryption is an error and changes nothing; otherwise the environment holds the encrypted value under the key, and the metadata keeps the creation time, records now, expires one interval later and has the next version |
| Retry.DefaultRetryConfig | backend/internal/util/retry.go:19-26 | three attempts, 500 ms first wait, 10 s cap, factor 2 |
| Retry.Truncate | backend/internal/util/retry.go:53 | the conversion to a duration truncates toward zero |
| Retry.NextWait | backend/internal/util/retry.go:53-58 | the next wait is the product of wait and factor truncated toward zero, capped at the maximum: a product from 0 up to the cap gives the whole number just below it, a negative one (with a non-negative cap) the whole number just above it, and one at or past the cap gives the cap |
| Retry.WaitBounded | backend/internal/util/retry.go:31-58 | every wait is at most the larger of the first wait and the cap |
| Retry.NextWaitGrows | backend/internal/util/retry.go:53-58 | with a factor of at least 1 a wait within the cap never shrinks and stays within the cap |
| Retry.ScaleAtLeast | backend/internal/util/retry.go:53 | scaling a non-negative wait by a factor of at least 1 and truncating never shrinks it |
| Retry.WaitsGrow | backend/internal/util/retry.go:31-58 | with a factor of at least 1 and a first wait within the cap, the waits never decrease and stay within the cap |
| Retry.FirstSuccess | backend/internal/util/retry.go:33-38 | the first successful attempt among 1..n, if any, is one where every earlier attempt failed; none means all n failed |
| Retry.FirstSuccessIs | backend/internal/util/retry.go:33-38 | an attempt that succeeds after n earlier failures is the first success |
| Retry.NoSuccess | backend/internal/util/retry.go:33-44 | when every attempt fails there is no first success |
| Retry.RetryOperation | backend/internal/util/retry.go:29-63 | with no attempts allowed nothing is called and no error returned; otherwise the operation is called until the first success, which returns no error, or up to the limit, which returns the last error wrapped with the count; one wait sits between calls, following the backoff schedule |
| InputValidation.DefaultInputValidationConfig | backend/internal/middleware/input_validation.go:49-73 | depth 10, arrays of 1000, strings of 10000, numbers within 1e10, ten forbidden patterns, and JSON, form and multipart bodies allowed |
| InputValidation.ShouldValidateRequestBody | backend/internal/middleware/input_validation.go:18-35 | GET, HEAD and OPTIONS bodies are never checked; DELETE only with a JSON, form or multipart content type; every other method always |
| InputValidation.MainTypeDropsParameters | backend/internal/middleware/input_validation.go:173-175 | the main type is the trimmed text before the first semicolon |
| InputValidation.ValidateContentType | backend/internal/middleware/input_validation.go:163-184 | the content type is accepted exactly when allowed; a missing one is refused except for GET and HEAD, and an unlisted main type is refused by name |
| InputValidation.ParametersIgnored | backend/internal/middleware/input_validation.go:173-181 | parameters after the semicolon play no part in the decision |
| InputValidation.FirstBadControl | backend/internal/middleware/input_validation.go:352-356 | no character is found exactly when the text has no control character other than newline, return and tab; a found one is such a character of the text |
| InputValidation.StringVerdict | backend/internal/middleware/input_validation.go:345-365 | the only refusals are a null byte, a control character and a forbidden pattern |
| InputValidation.StringVerdictAccepts | backend/internal/middleware/input_validation.go:345-365 | a text is accepted exactly when it has no bad control character and matches no forbidden pattern |
| InputValidation.ValidateString | backend/internal/middleware/input_validation.go:345-365 | the loops return the verdict above |
| InputValidation.HeaderValuesVerdict | backend/internal/middleware/input_validation.go:194-203 | a header's values pass exactly when each passes the text check and has no newline or return |
| InputValidation.ValidateHeaders | backend/internal/middleware/input_validation.go:187-207 | no error exactly when every header passes (internal X- security headers skipped); an error is the verdict of some header |
| InputValidation.QueryValuesVerdict | backend/internal/middleware/input_validation.go:220-228 | a key's values pass exactly when each is within the length limit and passes the text check |
| InputValidation.QueryVerdict | backend/internal/middleware/input_validation.go:211-228 | an over-long key is refused as such; a parameter passes exactly when its key is within length and clean and its values pass |
| InputValidation.ValidateQueryParams | backend/internal/middleware/input_validation.go:210-232 | no error exactly when every parameter passes; an error is the verdict of some parameter |
| InputValidation.LongQueryValueRefused | backend/internal/middleware/input_validation.go:221-223 | any over-long value makes its parameter fail |
| InputValidation.ValidateJSONStructure | backend/internal/middleware/input_validation.go:300-342 | a value passes exactly when every string, number, array and object key in it is within the limits and clean at a depth within the maximum; beyond the maximum depth it is refused as too deep |
| InputValidation.NestingLimit | backend/internal/middleware/input_validation.go:301-302 | n nested arrays starting at a depth pass exactly when that depth plus n is within the maximum |
| InputValidation.ValidateJSONBody | backend/internal/middleware/input_validation.go:283-297 | the raw text is checked first, then the decoding, then the structure from depth 0 |
| InputValidation.ValidateRequestBody | backend/internal/middleware/input_validation.go:235-280 | no body or an empty one passes, a read failure is refused, a JSON body goes through the JSON checks and any other through the text check |
| InputValidation.EnhancedInputValidation | backend/internal/middleware/input_validation.go:76-160 | content type, headers, query and body are checked in that order, the first failure giving its bad-request message, and the request goes on exactly when all pass |
| AdvancedSecurity.CanonicalFromChars | backend/internal/middleware/advanced_security.go:198-200 | Gin reads a header under the canonical form of its name: each letter keeps its letter, upper-case exactly at the start and after a '-', lower-case elsewhere, and other characters are kept |
| AdvancedSecurity.CanonicalIgnoresCase | backend/internal/middleware/advanced_security.go:237-243 | two token names differing only in the case of letters have the same canonical form |
| AdvancedSecurity.HeaderIgnoresCase | backend/internal/middleware/advanced_security.go:237-243 | so a header is read whatever the case of its name, e.g. X-WASM-Mode finds X-Wasm-Mode |
| AdvancedSecurity.Header | backend/internal/middleware/advanced_security.go:200 | the value stored under the name's canonical form, or "" when there is none |
| AdvancedSecurity.ConfiguredOrigins | backend/internal/middleware/advanced_security.go:64-70 | no configured origins give none; otherwise there is one trimmed origin per comma-separated part |
| AdvancedSecurity.NewAdvancedSecurityMiddleware | backend/internal/middleware/advanced_security.go:62-111 | the allowed origins are the configured ones plus the Flutter app origin, with the four required headers, the public bypass paths and the default limits, all checks enabled |
| AdvancedSecurity.ShouldBypassSecurity | backend/internal/middleware/advanced_security.go:388-395 | a path bypasses exactly when it starts with a bypass path |
| AdvancedSecurity.IsOriginAllowed | backend/internal/middleware/advanced_security.go:398-405 | an origin is allowed exactly when it equals an allowed origin |
| AdvancedSecurity.IsRefererAllowed | backend/internal/middleware/advanced_security.go:408-415 | a referer is allowed exactly when it starts with an allowed origin |
| AdvancedSecurity.OriginAllowsReferer | backend/internal/middleware/advanced_security.go:398-415 | any referer that extends an allowed origin is allowed |
| AdvancedSecurity.PublicPathsBypass | backend/internal/middleware/advanced_security.go:84-93 | every path under a default public path bypasses the checks |
| AdvancedSecurity.ConfiguredOriginsAllowed | backend/internal/middleware/advanced_security.go:64-73 | the Flutter origin and every trimmed configured origin are allowed |
| AdvancedSecurity.RequiredHeadersVerdict | backend/internal/middleware/advanced_security.go:198-205 | the check passes exactly when every required header is non-empty, and otherwise names a missing one |
| AdvancedSecurity.ValidateRequiredHeaders | backend/internal/middleware/advanced_security.go:198-205 | the loop returns that verdict |
| AdvancedSecurity.RequestTimeExact | backend/internal/middleware/advanced_security.go:219 | a timestamp in range converts to exactly that many seconds |
| AdvancedSecurity.TimestampVerdict | backend/internal/middleware/advanced_security.go:208-233 | a missing timestamp and an unparsable one are refused as such |
| AdvancedSecurity.TimestampWindow | backend/internal/middleware/advanced_security.go:219-232 | a parsed timestamp passes exactly when it is no older than the maximum age and at most one minute ahead |
| AdvancedSecurity.SignedPair | backend/internal/middleware/advanced_security.go:475-519 | a signed value without exactly one dot is refused with its format error |
| AdvancedSecurity.SignedPairOfParts | backend/internal/middleware/advanced_security.go:475-486 | a payload and a signature without dots, joined by one dot, pass exactly when the signature verifies the payload, and otherwise fail with a signature mismatch |
| AdvancedSecurity.OriginVerdict | backend/internal/middleware/advanced_security.go:236-285 | outside WASM and worker mode, a request passes exactly when it has an origin or a referer, and each present one is allowed; in either mode, disabled WASM is refused as such, a missing origin validation header is refused as such, and otherwise the header decides as a signed payload; the request then passes exactly when WASM is enabled and that signed payload verifies |
| AdvancedSecurity.ValidateOrigin | backend/internal/middleware/advanced_security.go:236-285 | the method returns that verdict |
| AdvancedSecurity.ClientSignatureVerdict | backend/internal/middleware/advanced_security.go:288-304 | the check passes exactly when a signature is present and verifies over method, path, timestamp and user agent |
| AdvancedSecurity.SecurityTokenVerdict | backend/internal/middleware/advanced_security.go:307-326 | a missing token is refused, and so is one not made of three dot-separated parts |
| AdvancedSecurity.TokenSignsTimestampAndNonce | backend/internal/middleware/advanced_security.go:314-325 | a three-part token passes exactly when its signature verifies over timestamp and nonce |
| AdvancedSecurity.SecurityLevelVerdict | backend/internal/middleware/advanced_security.go:329-346 | the check passes exactly when the level parses and reaches the required level; a missing level is refused as such |
| AdvancedSecurity.WasmWorkerVerdict | backend/internal/middleware/advanced_security.go:349-383 | without WASM or worker headers the check passes; WASM mode while it is disabled is refused |
| AdvancedSecurity.ValidateAdvancedSecurity | backend/internal/middleware/advanced_security.go:158-195 | the seven checks run in order; no error exactly when all pass, otherwise the error is the first failing check's, all earlier ones having passed |
| AdvancedSecurity.Middleware | backend/internal/middleware/advanced_security.go:114-155 | bypass paths and OPTIONS requests go on; otherwise the request goes on exactly when all checks pass |
| BackupConfigModel.GetEnvString | backend/internal/config/backup_config.go:179-184 | a non-empty environment value wins; an unset or empty one gives the default |
| BackupConfigModel.GetEnvBool | backend/internal/config/backup_config.go:186-193 | a value that parses as a boolean is used, anything else gives the default |
| BackupConfigModel.GetEnvInt | backend/internal/config/backup_config.go:195-202 | a value that parses as an integer is used, anything else gives the default |
| BackupConfigModel.GetEnvDuration | backend/internal/config/backup_config.go:204-211 | an unset value or one that does not parse as a duration gives the default |
| BackupConfigModel.LoadBackupConfig | backend/internal/config/backup_config.go:73-130 | S3 settings are present exactly when the storage type is s3, Azure settings exactly when it is azure |
| BackupConfigModel.Validate | backend/internal/config/backup_config.go:133-171 | a disabled configuration is never refused; an enabled one is accepted exactly when it is sound (directory set, at least one retry, retention day and backup, compression level 1 to 9, cloud settings for cloud storage, a key when encrypting), and the first two checks give their own errors |
| BackupConfigModel.DefaultsAreValid | backend/internal/config/backup_config.go:74-106 | with an empty environment the defaults are enabled, ./backups, 3 retries, 30 days, 100 backups, level 6, local storage, 1 s retry wait and a 24 h interval, and they validate |
| BackupConfigModel.LoadedHasCloudSettings | backend/internal/config/backup_config.go:108-127 | a loaded configuration is never refused for missing S3 or Azure settings |
| BackupConfigModel.GetRetentionDuration | backend/internal/config/backup_config.go:174-176 | the duration is a 64-bit value, wrapping as Go does |
| BackupConfigModel.RetentionDurationExact | backend/internal/config/backup_config.go:174-176 | up to 106751 days the duration is exactly that many days |
| DbPoolConfig.GetOptimalPoolConfig | backend/internal/config/pool.go:20-45 | at most 100 and at least 20 open connections, four per CPU in between; idle connections a third of those but at least 5; 10 min lifetime and 2 min idle time |
| DbPoolConfig.PoolLimitsConsistent | backend/internal/config/pool.go:25-37 | open connections lie in 20..100, idle ones in 6..33, always fewer idle than open |
| DbPoolConfig.PoolGrowsWithCPUs | backend/internal/config/pool.go:25-37 | more CPUs never give fewer open or idle connections |
| DistributedCacheModel.ShardIndex | backend/internal/cache/distributed.go:89-97 | the primary shard index lies within the shard count |
| DistributedCacheModel.ProbeIndex | backend/internal/cache/distributed.go:107 | each probe index lies within the shard count |
| DistributedCacheModel.ProbeReaches | backend/internal/cache/distributed.go:106-107 | the probe starting at any shard visits every shard within one round |
| DistributedCacheModel.ModBelow | backend/internal/cache/distributed.go:107 | an index already within range is its own remainder |
| DistributedCacheModel.ModWrapOnce | backend/internal/cache/distributed.go:107 | an index one round past the range wraps back to itself |
| DistributedCacheModel.LastError | backend/internal/cache/distributed.go:190-205 | the recorded error is one of an attempted shard's errors, and there is none exactly when every attempted delete succeeded |
| DistributedCacheModel.DeleteResults | backend/internal/cache/distributed.go:186-210 | the loop returns the last error of an attempted shard, and reports a deletion exactly when some attempted shard succeeded |
| DistributedCacheModel.DeleteFailsOnlyIfAllFailed | backend/internal/cache/distributed.go:185-224 | Delete reports an error exactly when some shard was attempted, every attempt failed and the fallback did not delete |
| DistributedCacheModel.DistributedCache.constructor | backend/internal/cache/distributed.go:40-74 | one slot per configured shard, healthy exactly when it connected |
| DistributedCacheModel.DistributedCache.ProbeFrom | backend/internal/cache/distributed.go:104-117 | a found shard is usable and the first usable one in probe order; none found means no probed shard is usable |
| DistributedCacheModel.DistributedCache.ProbeStable | backend/internal/cache/distributed.go:106-115 | once a probe finds a shard, probing further finds the same one |
| DistributedCacheModel.DistributedCache.ShardFor | backend/internal/cache/distributed.go:86-121 | a healthy primary shard is the key's shard; otherwise the first usable shard in circular probe order from the primary, and none exactly when no shard is usable |
| DistributedCacheModel.DistributedCache.GetShard | backend/internal/cache/distributed.go:86-121 | the method returns the key's shard as specified above, and any returned shard is usable |
| DistributedCacheModel.DistributedCache.ProbeFindsAnyUsable | backend/internal/cache/distributed.go:104-117 | the probe fails exactly when no shard at all is usable |
| DistributedCacheModel.DistributedCache.Route | backend/internal/cache/distributed.go:124-135 | the key's shard is used when there is one; otherwise the fallback when it is enabled, and the "no healthy shards" error when not |
| DistributedCacheModel.DistributedCache.Attempted | backend/internal/cache/distributed.go:190-199 | a shard is attempted exactly when it is present and healthy |
| DistributedCacheModel.DistributedCache.Delete | backend/internal/cache/distributed.go:185-224 | the method returns the Delete outcome over the attempted shards and the fallback |
| DistributedCacheModel.DistributedCache.CheckShardHealth | backend/internal/cache/distributed.go:337-366 | each shard is healthy afterwards exactly when it is present and its ping succeeded |
| DistributedCacheModel.DistributedCache.CountUsable | backend/internal/cache/distributed.go:391-397 | the count is at most the number of shards and zero exactly when none is usable |
| DistributedCacheModel.DistributedCache.HealthyShards | backend/internal/cache/distributed.go:389-408 | the loop counts the usable shards |
| DistributedCacheModel.NewDistributedCache | backend/internal/cache/distributed.go:35-83 | no shard configuration is an error; otherwise a fresh, consistent cache over the given shards |
| DbUtils.StripTrailingSlashes | backend/internal/util/db_utils.go:181 | the result is a prefix without a trailing slash, and only slashes were dropped |
| DbUtils.Base | backend/internal/util/db_utils.go:181 | the base name is never empty and is either / or free of slashes |
| DbUtils.Ext | backend/internal/util/db_utils.go:184 | the extension is empty or a suffix of the name that starts with its only dot and has no slash |
| DbUtils.ExtOfLastDot | backend/internal/util/db_utils.go:184 | a dot with no dot and no separator after it starts the extension, which runs to the end |
| DbUtils.ExtEmptyExactly | backend/internal/util/db_utils.go:184 | the extension is empty exactly when every dot of the path is followed by a separator |
| DbUtils.SqlExtensionIsSuffix | backend/internal/util/db_utils.go:181-184 | a base name has the extension .sql exactly when it ends in .sql |
| DbUtils.ValidateBackupFilename | backend/internal/util/db_utils.go:179-192 | a name is accepted exactly when its last component ends in .sql; the accepted value is that component, free of separators; otherwise the error says only .sql is allowed |
| DbUtils.ValidateBackupFilenameSpec | backend/internal/util/db_utils.go:179-192 | a name is accepted exactly when the extension of its base name is .sql, which is exactly when the base name ends in .sql, and the accepted name is that base name, without separators |
| DbUtils.BaseOfPlainName | backend/internal/util/db_utils.go:181 | a name without slashes is its own base name |
| DbUtils.BaseOfJoin | backend/internal/util/db_utils.go:181 | the base name of a directory joined with a name is that name |
| DbUtils.ValidateIdempotent | backend/internal/util/db_utils.go:179-192 | an accepted name is accepted again unchanged |
| DbUtils.DirectoryIgnored | backend/internal/util/db_utils.go:179-192 | a directory in front of a name does not change the verdict, so traversal prefixes are stripped |
| DbUtils.CompressedRefused | backend/internal/util/db_utils.go:184-186 | backup.sql.gz is refused |
| BackupManagerModel.SuffixesAreNameChars | backend/internal/backup/backup_manager.go:598 | the four backup suffixes use only allowed name characters |
| BackupManagerModel.PatternCharacterised | backend/internal/backup/backup_manager.go:598 | a name matches the pattern exactly when it uses only letters, digits, underscore, dot and dash and ends in one of the four suffixes |
| BackupManagerModel.DoubleDotIsContains | backend/internal/backup/backup_manager.go:599 | containing .. is having two adjacent dots |
| BackupManagerModel.IsValidBackupFilename | backend/internal/backup/backup_manager.go:596-600 | a name is valid exactly when it uses only letters, digits, underscore, dot and dash, properly ends in one of the four backup suffixes, and has no two adjacent dots |
| BackupManagerModel.ValidNameStaysInDirectory | backend/internal/backup/backup_manager.go:596-600 | a valid name has no slash, is neither . nor .., and is at least five characters |
| BackupManagerModel.FinalName | backend/internal/backup/backup_manager.go:416-437 | the final name extends the base by .gz when compressing and .enc when encrypting |
| BackupManagerModel.FinalNameSuffix | backend/internal/backup/backup_manager.go:416-437 | a .sql name ends in the matching one of the four suffixes |
| BackupManagerModel.SuffixesHaveNoDoubleDot | backend/internal/backup/backup_manager.go:598-599 | no suffix contains two adjacent dots |
| BackupManagerModel.NoDoubleDotAcross | backend/internal/backup/backup_manager.go:599 | a stem without .. and not ending in a dot, followed by a suffix without .., has no .. |
| BackupManagerModel.ProducedNamesRestorable | backend/internal/backup/backup_manager.go:86-99 | every name CreateBackup produces from a clean stem passes the restore name check |
| BackupManagerModel.ProcessBackup | backend/internal/backup/backup_manager.go:411-448 | success exactly when each enabled step that is reached succeeds (and the rename, when no step is enabled); on success the path is the final name, the flags are the enabled steps, and the files left are the dump and the final file (only the final file after a rename); a failed compression, encryption or rename gives its own message and leaves the dump, any finished intermediate file, and the step's destination exactly when the step failed after creating it |
| BackupAdmin.ParseDuration | backend/cmd/backup-admin/main.go:583-594 | a value ending in d is accepted exactly when the rest is an integer and becomes that many days, wrapping as Go does, and is otherwise refused with strconv.Atoi's error; anything else is Go's duration parse |
| BackupAdmin.AtoiError | backend/cmd/backup-admin/main.go:586-588 | strconv.Atoi's error names the function and the quoted input, then says out of range or invalid syntax |
| BackupAdmin.DaysParse | backend/cmd/backup-admin/main.go:585-591 | a written-out day count within range parses to exactly that many days |
| BackupAdmin.DayProductFits | backend/cmd/backup-admin/main.go:590 | within that range the day product does not overflow |
| BackupAdmin.FractionalDaysRefused | backend/cmd/backup-admin/main.go:586-589 | 1.5d is refused |
| BackupAdmin.SortKeyOf | backend/cmd/backup-admin/main.go:245-258 | a sort key exists exactly for date, name and size |
| BackupAdmin.LeIsNotLess | backend/cmd/backup-admin/main.go:247-257 | the order used is the negation of the source comparator with its arguments swapped |
| BackupAdmin.LeTotal | backend/cmd/backup-admin/main.go:247-257 | any two backups are ordered one way or the other |
| BackupAdmin.LeTransitive | backend/cmd/backup-admin/main.go:247-257 | the order is transitive |
| BackupAdmin.SelectFirst | backend/cmd/backup-admin/main.go:245-258 | the selected index comes first in the order among the rest |
| BackupAdmin.SwapKeepsOrder | backend/cmd/backup-admin/main.go:245-258 | swapping the selected backup into place extends the sorted prefix and keeps the contents |
| BackupAdmin.SortBackups | backend/cmd/backup-admin/main.go:245-258 | the backups end sorted by the key and are a permutation of the original |
| BackupAdmin.SortedFromOrdered | backend/cmd/backup-admin/main.go:245-258 | a fully ordered prefix is a sorted sequence |
| BackupAdmin.Limit | backend/cmd/backup-admin/main.go:261-263 | a positive limit smaller than the count keeps that many leading backups, anything else keeps all |
| BackupAdmin.ListBackups | backend/cmd/backup-admin/main.go:220-263 | a known sort key sorts, an unknown one leaves the order, the contents are kept, and the shown list is the limited prefix |
| BackupAdmin.OlderThan | backend/cmd/backup-admin/main.go:342-349 | exactly the backups modified before the cutoff are kept |
| BackupAdmin.OlderThanAppend | backend/cmd/backup-admin/main.go:345-349 | selecting from a concatenation is concatenating the selections |
| BackupAdmin.SelectOldBackups | backend/cmd/backup-admin/main.go:341-349 | the loop selects the backups older than now minus the duration, in order |
| BackupAdmin.CountRemoved | backend/cmd/backup-admin/main.go:384-392 | at most every backup is counted, and all exactly when every removal succeeded |
| BackupAdmin.DeleteOldBackups | backend/cmd/backup-admin/main.go:354-392 | the loops count the successful removals and total the sizes |
| LearningSession.Flashcard | backend/internal/api/learning_session_handler.go:608-614 | a card carries the word's id, text, short meaning, pronunciation and level |
| LearningSession.GenerateFlashcardQuestions | backend/internal/api/learning_session_handler.go:605-617 | one card per word, in order |
| LearningSession.Shuffle | backend/internal/api/learning_session_handler.go:674-677 | the shuffle keeps the length and the contents |
| LearningSession.PairAt | backend/internal/api/learning_session_handler.go:664-669 | a pair carries the word's id, text, short meaning and its position |
| LearningSession.PairsInOrder | backend/internal/api/learning_session_handler.go:662-670 | one pair per word, in order |
| LearningSession.GenerateMatchPairs | backend/internal/api/learning_session_handler.go:661-680 | the pairs are a permutation of the in-order pairs, each matching the word at its recorded position |
| LearningSession.Meanings | backend/internal/api/learning_session_handler.go:624-639 | every word's short meaning is among the meanings |
| LearningSession.DistinctWithin | backend/internal/api/learning_session_handler.go:627-640 | distinct options drawn from a set are no more than the set |
| LearningSession.PickFrom | backend/internal/api/learning_session_handler.go:627-641 | drawing only ever appends options: those given are a prefix of the result |
| LearningSession.PickFromExhausts | backend/internal/api/learning_session_handler.go:627-641 | when fewer than four options come out, every draw of another word with a different meaning had its meaning among the options |
| LearningSession.PickOptions | backend/internal/api/learning_session_handler.go:624-642 | the drawing loop yields the specified options: they start with the right meaning, are distinct meanings of the words, are complete exactly when there are four, and when incomplete every other meaning that was drawn is among them |
| LearningSession.OptionsNeedFourMeanings | backend/internal/api/learning_session_handler.go:627 | four distinct options need at least four distinct meanings among the words |
| LearningSession.GenerateMultipleChoiceQuestions | backend/internal/api/learning_session_handler.go:619-659 | produced questions are one per word, each with four distinct meanings including the correct one, and need four distinct meanings |
| LearningSession.TrimLowerCommute | backend/internal/api/learning_session_handler.go:689-691 | trimming and lower-casing commute |
| Common.LowerKeepsSpace | backend/internal/api/learning_session_handler.go:689-691 | lower-casing neither makes nor unmakes white space |
| LearningSession.TrimIdempotent | backend/internal/api/learning_session_handler.go:689-691 | trimming twice is trimming once |
| LearningSession.NormaliseIdempotent | backend/internal/api/learning_session_handler.go:689-691 | normalising twice is normalising once |
| LearningSession.CompareTypedAnswer | backend/internal/api/learning_session_handler.go:687-695 | an answer equal to the correct answer or to the word is accepted, and so is one equal to the correct answer up to case |
| LearningSession.CompareVietnameseCapital | backend/internal/api/learning_session_handler.go:689-690 | a padded capital Vietnamese answer (" Ăn") matches its lower-case form ("ăn") |
| LearningSession.CompareIgnoresCaseAndSpace | backend/internal/api/learning_session_handler.go:687-695 | the answer is judged after normalising, and the correct answer and the word itself are always accepted |
| ResponseOptimizer.FieldSet | backend/internal/performance/response_optimizer.go:121-124 | the set holds exactly the lower-cased requested fields |
| ResponseOptimizer.BuildFieldSet | backend/internal/performance/response_optimizer.go:121-124 | the loop builds that set |
| ResponseOptimizer.Select | backend/internal/performance/response_optimizer.go:126-160 | each of the ten fields (id, word, pronounce, level, descript_level, short_mean, means, snym, freq, conjugation) is present exactly when requested, and then carries the word's value |
| ResponseOptimizer.OptimizedWords | backend/internal/performance/response_optimizer.go:113-164 | one response per word, and the full list exactly when no fields are requested |
| ResponseOptimizer.OptimizeWordsResponse | backend/internal/performance/response_optimizer.go:113-164 | the method returns the optimized list |
| ResponseOptimizer.SelectionIgnoresCase | backend/internal/performance/response_optimizer.go:123 | requested fields that lower-case alike, position by position, select the same |
| ResponseOptimizer.DottedCapitalSelectsId | backend/internal/performance/response_optimizer.go:123 | a field requested as "İD" (capital I with dot above) lowers to "id" and selects the id |
| ResponseOptimizer.SelectedFieldsCarryValues | backend/internal/performance/response_optimizer.go:129-146 | a selected field carries the word's value and an unselected one is absent |
| ResponseOptimizer.FieldsFromQuery | backend/internal/performance/response_optimizer.go:183-195 | a failed binding gives no fields; a single comma-separated value is split into comma-free parts that join back to it; anything else is kept as is |
| ResponseOptimizer.CommaCount | backend/internal/performance/response_optimizer.go:190 | a value containing a comma has at least one comma |
| ResponseOptimizer.CommaFieldsRoundTrip | backend/internal/performance/response_optimizer.go:190-191 | joining two or more comma-free names with commas and reading them back gives the names |
| ResponseOptimizer.ChunksOf | backend/internal/performance/response_optimizer.go:205-214 | each batch is non-empty and at most the batch size |
| ResponseOptimizer.ChunksFlatten | backend/internal/performance/response_optimizer.go:205-214 | the batches put back together are the words |
| ResponseOptimizer.ChunksCount | backend/internal/performance/response_optimizer.go:205-214 | the number of batches is the word count divided by the batch size, rounded up |
| ResponseOptimizer.ChunksStep | backend/internal/performance/response_optimizer.go:205-211 | one loop step takes a full batch or the rest |
| ResponseOptimizer.BatchOptimizeWords | backend/internal/performance/response_optimizer.go:198-217 | the loop computes the specified batching: up to one batch of words gives one optimized list; more give one optimized list per batch of the words, in order, as many as there are batches |
| ResponseOptimizer.MinimalWordResponse | backend/internal/performance/response_optimizer.go:229-236 | the minimal response has exactly id, word, short meaning and level, with the word's values |
| ResponseOptimizer.MinimalWordsResponse | backend/internal/performance/response_optimizer.go:239-245 | one minimal response per word, in order |
| ResponseOptimizer.OptimizeByResponseType | backend/internal/performance/response_optimizer.go:248-263 | minimal gives one minimal response per word, in order; batch gives the batching with batches of 50; anything else gives the optimized list |
| WordLevelAnalyzer.ParseLine | analyze_service/word_level_analyzer.py:22 | a line unpacks into (word, level) exactly when its stripped text holds exactly one bar separator; the pieces hold no bar and rebuild the stripped line, any other line is an error |
| WordLevelAnalyzer.MissingFileSkipped | analyze_service/word_level_analyzer.py:17-27 | a missing level file contributes nothing: the entries read from the files are those of the files around it |
| WordLevelAnalyzer.AddEntry | analyze_service/word_level_analyzer.py:23-24 | recording (word, level) files the lower-cased word, keeps a level at least the new one, and never lowers a stored level |
| WordLevelAnalyzer.FoldMonotone | analyze_service/word_level_analyzer.py:21-24 | reading more lines never lowers a stored level nor drops a word |
| WordLevelAnalyzer.FoldAtLeast | analyze_service/word_level_analyzer.py:21-24 | after reading the lines, every level read for a word is at most the stored one |
| WordLevelAnalyzer.FoldFromSeen | analyze_service/word_level_analyzer.py:21-24 | every stored level was there before or was read for that word |
| WordLevelAnalyzer.WordLevelsGreatest | analyze_service/word_level_analyzer.py:13-29 | the loaded table's keys are lower-case, each level is the greatest (by string order) read for the word, and it is one of the levels read for it |
| WordLevelAnalyzer.LoadLines | analyze_service/word_level_analyzer.py:21-24 | the line loop of one file yields the table its entries give, or the first malformed line's error |
| WordLevelAnalyzer.LoadWordLevels | analyze_service/word_level_analyzer.py:13-29 | the loop over the five level files, skipping missing ones and the header line of each, computes the specified table |
| WordLevelAnalyzer.Tokens | analyze_service/word_level_analyzer.py:56 | the tokens of a text are non-empty runs of word characters |
| WordLevelAnalyzer.AccentedWordIsOneToken | analyze_service/word_level_analyzer.py:56 | the lower-cased "RÉSUMÉ" is one token, "résumé" |
| WordLevelAnalyzer.TokensAcrossSeparator | analyze_service/word_level_analyzer.py:56 | a non-word character splits the text: the tokens are those of each side, in order |
| WordLevelAnalyzer.TokensOfLowerCase | analyze_service/word_level_analyzer.py:56 | every token of a lower-case text is lower-case |
| WordLevelAnalyzer.TextTokens | analyze_service/word_level_analyzer.py:56 | the tokens of the lower-cased text are non-empty and lower-case |
| WordLevelAnalyzer.CountWords | analyze_service/word_level_analyzer.py:57 | the counter lists each distinct token once, has exactly the tokens as keys, and each count is the token's number of occurrences, at least 1 |
| WordLevelAnalyzer.LemmaSynonymsShape | analyze_service/word_level_analyzer.py:38-42 | the synonyms of one synonym set hold no '_' and never equal the lower-cased word |
| WordLevelAnalyzer.AllSynonymsShape | analyze_service/word_level_analyzer.py:36-42 | the gathered synonyms of all synonym sets hold no '_' and never equal the lower-cased word |
| WordLevelAnalyzer.SuggestionWordsShape | analyze_service/word_level_analyzer.py:40-45 | a suggested word is never the word itself, holds no '_', has a known level and that level is at least the minimum |
| WordLevelAnalyzer.CollectSynonyms | analyze_service/word_level_analyzer.py:35-42 | the nested loop gathers exactly the specified synonym set |
| WordLevelAnalyzer.ListedSuggestionsValid | analyze_service/word_level_analyzer.py:43-52 | a list holding each qualifying synonym once, with its level and the first synonym set's gloss, is a valid suggestion list |
| WordLevelAnalyzer.ListOne | analyze_service/word_level_analyzer.py:44-50 | one turn of the listing loop lists the synonym taken out exactly when its level is known, non-empty and at least the minimum |
| WordLevelAnalyzer.ListQualifying | analyze_service/word_level_analyzer.py:43-50 | every listed suggestion is a qualifying synonym with its level and the gloss, every qualifying synonym is listed, none twice |
| WordLevelAnalyzer.GetSynonymSuggestions | analyze_service/word_level_analyzer.py:31-52 | the suggestions are exactly the qualifying synonyms of the word's synonym sets, each once, with its level and the gloss of the first set ("" when there is none) |
| WordLevelAnalyzer.KeyLtTransitive | analyze_service/word_level_analyzer.py:75 | the (level, word) order is transitive |
| WordLevelAnalyzer.KeyLtTotal | analyze_service/word_level_analyzer.py:75 | two entries are ordered one way or the other unless their level and word are equal |
| WordLevelAnalyzer.InsertByKey | analyze_service/word_level_analyzer.py:75 | inserting an entry adds exactly that entry |
| WordLevelAnalyzer.SortByKey | analyze_service/word_level_analyzer.py:75 | the sort is a permutation of its input |
| WordLevelAnalyzer.InsertKeepsOrder | analyze_service/word_level_analyzer.py:75 | inserting an entry with a new (level, word) key into a sorted list keeps it strictly sorted |
| WordLevelAnalyzer.SortByKeyOrders | analyze_service/word_level_analyzer.py:75 | entries with distinct words, each at its table level, come out strictly sorted by (level, word) |
| WordLevelAnalyzer.SortedWordsDistinct | analyze_service/word_level_analyzer.py:75 | a strictly sorted report names each word once |
| WordLevelAnalyzer.SortedReport | analyze_service/word_level_analyzer.py:58-75 | sorting the built entries keeps them well formed and complete and makes them strictly sorted |
| WordLevelAnalyzer.AnalyzeWord | analyze_service/word_level_analyzer.py:60-70 | a known word's entry carries its level and count, and suggestions exactly when it is A1 or repeated and some synonym qualifies |
| WordLevelAnalyzer.VisitWord | analyze_service/word_level_analyzer.py:59-72 | one turn of the counting loop adds an entry exactly for a word with a known level |
| WordLevelAnalyzer.BuildEntries | analyze_service/word_level_analyzer.py:58-72 | the loop yields one well-formed entry per counted word with a known level, and no other |
| WordLevelAnalyzer.AnalyzeText | analyze_service/word_level_analyzer.py:54-77 | the report is strictly sorted by (level, word), names exactly the text's tokens that have a level, each once, with its count and the suggestion rule |
| DataExtract.QuotesRoundTrip | data/extract.py:9-10 | doubling the single quotes of any text is undone by the SQL reading of a quoted literal |
| DataExtract.EscapeSqlString | data/extract.py:3-10 | None becomes NULL; any other value becomes a quoted literal that SQL reads back as the value with CRLF normalised to LF |
| DataExtract.DecodeQuoted | data/extract.py:28 | reading a double-quoted array element consumes at least its closing quote |
| DataExtract.ElementEscapeAsWritten | data/extract.py:21-25 | the script's element escaping: newlines normalised, each pair of backslashes doubled, each double quote preceded by two backslashes, single quotes doubled (no contract of its own; AsWrittenAgreesOnPlainElements relates it to the corrected escaping) |
| DataExtract.FormatSqlArrayAsWritten | data/extract.py:12-30 | as written, None and the empty list give '{}', and every literal is a braced list between single quotes |
| DataExtract.ElementsAsWritten | data/extract.py:17-28 | the script's escaping produces one element per list item |
| DataExtract.AsWrittenBreaksOnQuote | data/extract.py:25 | the literal the script writes for the list ["\""] does not read back as any array (see Findings) |
| DataExtract.AsWrittenBreaksOnBackslash | data/extract.py:23 | the literal the script writes for a list holding one backslash does not read back as any array (see Findings) |
| DataExtract.UnescapePlain | data/extract.py:27 | text without single quotes reads back unchanged |
| DataExtract.Elements | data/extract.py:17-28 | the corrected escaping produces one element per list item |
| DataExtract.FormatSqlArray | data/extract.py:14-15 | None and the empty list give the empty array literal '{}' |
| DataExtract.NormaliseAll | data/extract.py:21 | each element has CRLF normalised to LF, one for one |
| DataExtract.DecodeEscaped | data/extract.py:22-28 | an element escaped with backslashes and closed by a quote reads back as the element and the rest |
| DataExtract.JoinDoubling | data/extract.py:27-30 | doubling single quotes per element and then joining equals joining and then doubling |
| DataExtract.AsWrittenAgreesOnPlainElements | data/extract.py:22-25 | on elements with no backslash and no double quote the script's escaping and the corrected one agree |
| DataExtract.ParseHead | data/extract.py:28-30 | the array reader takes one escaped quoted element, then either the closing brace or a comma and the rest |
| DataExtract.ParsePgElements | data/extract.py:28-30 | escaped quoted elements joined by commas and closed by a brace read back as the elements |
| DataExtract.LiteralBody | data/extract.py:30 | the array literal is the quote-doubled braced element list between single quotes |
| DataExtract.EmptyArrayRoundTrip | data/extract.py:14-15 | the empty array literal reads back as the empty array |
| DataExtract.FormatSqlArrayRoundTrip | data/extract.py:12-30 | with the corrected escaping, every list's literal reads back as the list with CRLF normalised to LF |
| DataExtract.ArrayTextParses | data/extract.py:28-30 | a braced list of escaped quoted elements reads back as those elements |
| DataMain.EscapeSqlString | data/main.py:11-15 | "null" in any letter case becomes NULL; any other cell has its single quotes doubled so that SQL reads it back unchanged |
| DataMain.NullInAnyCase | data/main.py:13-14 | "null", "NULL" and "Null" all become NULL |
| DataMain.MarkedLength | data/main.py:19-27 | a bracketed text has at least 2 characters and a quoted bracketed one at least 4, so the two marks never overlap |
| DataMain.ReplaceArray | data/main.py:17-34 | the conversion keeps the text's length |
| DataMain.BracketsBecomeBraces | data/main.py:19-25 | "[x]" becomes "{x}" |
| DataMain.QuotedBracketsBecomeBraces | data/main.py:27-33 | "'[x]'" becomes "'{x}'" |
| DataMain.EmptyLists | data/main.py:21-30 | "[]" becomes "{}" and "'[]'" becomes "'{}'" |
| DataMain.ChangesExactlyMarked | data/main.py:17-34 | the text changes exactly when it is bracketed or quoted-bracketed |

## Left out

- HTTP transport is not modelled: Gin contexts, handlers, routing and response writing. Each check takes the request's relevant values (headers, query, body, method, path) as plain values.
- Concurrency is not modelled: mutexes, goroutines, tickers and the periodic cleanup and health-check loops. Each operation is one sequential call, and a periodic job is a method that the caller invokes. The scheduler's stop channel is modelled only as open or closed (see Findings).
- Logging, metrics export and printing are not modelled; none of them affects a result.
- Database, Redis, file-system, process and network calls are not modelled. Their outcomes are parameters: pg_dump and psql, the shard clients, directory scans, renames, file removal and HTTP probes.
- Case mapping, case folding and the word characters of `\w` cover the Latin script: ASCII, Latin-1, Latin Extended-A, Latin Extended Additional and the Vietnamese horned O and U. White space is the full Unicode White_Space set, and control characters are Go's `unicode.IsControl` set.
- Validation.PasswordClass, Validation.IsStrongPassword: Go's `unicode.IsUpper`, `IsLower`, `IsDigit`, `IsPunct` and `IsSymbol` are read on ASCII only. A non-ASCII letter or digit counts as neither, so the strength lemmas hold for the ASCII reading.
- I18nMiddleware.ParseLanguageParam, I18nMiddleware.ParseIgnoresCaseAndSpace, I18nMiddleware.ParseLanguageParamOpt, I18nMiddleware.DetectLanguage: capitals outside the Latin script (Greek, Cyrillic and others) and the Latin Extended-B capitals other than horned O and U are left as they are, where Go's `strings.ToLower` would lower them. No language alias contains such a letter.
- LearningSession.CompareIgnoresCaseAndSpace, LearningSession.CompareTypedAnswer: answers are lowered on the Latin script only; two answers that differ only in the case of a Greek or Cyrillic letter are judged different, where Go judges them equal.
- ResponseOptimizer.FieldSet: requested field names are lowered on the Latin script only; a field name with a non-Latin capital is kept as written.
- InputValidation: the content-type comparison folds case as Go's `strings.EqualFold` does on the Latin script, including the Kelvin and Angstrom signs and the long s. Fold orbits outside it (the micro sign and Greek mu, the Greek and Cyrillic letters) are not modelled.
- WordLevelAnalyzer.AddEntry, WordLevelAnalyzer.WordLevelsGreatest, WordLevelAnalyzer.Tokens, WordLevelAnalyzer.TextTokens, WordLevelAnalyzer.AnalyzeText: Python's `str.lower` and `\w` are modelled on the Latin script. Letters and digits of other scripts are not word characters here, where Python counts them. Python lowers capital I with dot above to two characters (i and a combining dot), and the model lowers it to a plain i.
- Strings are sequences of Unicode scalar values, not bytes. Where Go compares byte lengths, the model uses the UTF-8 length (`Common.Utf8Len`); invalid UTF-8 is not modelled.
- Upgrade.ParseVersion: digits accumulate into unbounded integers. Go's `int` would overflow on a part longer than 18 digits, and that case is not modelled.
- Upgrade.ShouldNotifyUser: its own contract covers non-subscribers and required releases. The choice by major, minor or patch is stated in `Upgrade.SubscriberByVersionParts`.
- Upgrade: NotifyUpgrade, which pushes a release to connected users over the WebSocket manager, is not modelled; only the choice of who is told (`Upgrade.ShouldNotifyUser`) is. The getters and GetStats are plain reads and are left out.
- Scoring: the call to the language model is not modelled. Its raw reply is the input of `Scoring.ParseAIAssessment`, and floating-point values are reals.
- Scoring.FallbackScoring: its response states score, band, suggestions and confidence; the per-criterion Feedback texts that `generateFeedback` writes (backend/internal/ai/scoring_service.go:303-343) are left out.
- WordLevelAnalyzer: reading the level files and WordNet are not modelled. The files arrive as lines or as missing, and the synonym dictionary is a function parameter. The FastAPI wrapper is not part of this model.
- AdvancedSecurity.CanonicalFromChars: the canonical header name is Go's for token names; net/http stores request headers under canonical names, so `Request.headers` holds them that way.
- AdvancedSecurity: HMAC signing and the lookup of the caller's key are a `verify` parameter. Parsing the timestamp and the level as integers is modelled. `AdvancedSecurity.WasmWorkerVerdict` states the absent-header and disabled-WASM cases; its signed-payload branches are in its body only.
- InputValidation: each forbidden-pattern regular expression is a matcher predicate. JSON decoding is a parameter, and reading and restoring the request body is reduced to the body text or a read failure.
- DistributedCacheModel: the Redis operations (Get, Set, Exists, Clear, GetTTL, SetNX, Increment, replication, Close, per-shard stats) are not modelled beyond routing. CRC32 and MD5 hashing are reduced to the key's hash as a number.
- BackupManagerModel: CreateBackup, RestoreBackup, dump execution, compression, encryption, checksums, metadata files and cleanup are not modelled. Only the naming and the outcome of `ProcessBackup` are. Each step's outcome is a parameter: done, failed before creating its output, or failed after creating it.
- BackupAdmin.AtoiError: the input is quoted as it is; `strconv.Quote` would also escape quotes, backslashes and unprintable characters in it.
- BackupAdmin: the create, restore, validate, status and monitor commands, directory scanning, output formatting (`formatBytes`, `formatDuration`) and the confirmation prompt are not modelled. A confirmed cleanup is modelled.
- BackupConfigModel.GetEnvDuration: it states only the fallback case. A value that parses is whatever the `parseDuration` parameter returns, which stands in for Go's `time.ParseDuration`.
- BackupConfigModel.LoadBackupConfig: its contract states the cloud-settings rule. The default of every field is stated in `BackupConfigModel.DefaultsAreValid`, not field by field for every environment.
- Health.Percentage: with no components Go's float division gives NaN. Reals have no NaN, so the model gives 0 there.
- SimpleMonitor.CalculateDiskUsage: the source returns fixed figures rather than querying the disk, and so does the model.
- SimpleMonitor.CheckHealth: each issue text is one constructor of `Issue`, carrying the usage percentage where the text shows it; the `%.1f` formatting of the percentage is not modelled.
- LearningSession.GenerateMultipleChoiceQuestions: the source loops until it has four distinct meanings, forever if the words have fewer. The model reads its random draws from a finite sequence and returns None when they run out. It promises well-formed questions only when it returns some, and proves that four distinct meanings are needed.
- LearningSession: the session handlers and `updateVocabularyStats` are HTTP and database code and are not modelled.
- ResponseOptimizer.BatchOptimizeWords: it requires a positive batch size. With zero the source's loop would not end, and with a negative size it would slice out of range; its only caller passes 50.
- ResponseOptimizer: the object pool behind the full response list is not modelled; the full list is the words' full responses. JSON marshalling in `CompressResponse` and `CalculateResponseSize` is not modelled either.
- Secrets: encryption and decryption of secrets and key generation are not modelled. The process environment written by a rotation is a map field.
- I18nModel: reading and decoding the message files is not modelled. The decoded files come in as a parameter.
- I18nModel.I18n.GetMessage: the `args` formatting with `fmt.Sprintf` is not modelled; the contract is for calls without format arguments, which return the message or key unchanged.
- I18nModel.I18n.constructor: the files of the ./i18n directory are the `files` parameter, already decoded; a missing or malformed file is None.
- DataExtract and DataMain: reading the JSON and CSV inputs and writing the SQL files are not modelled. Only the escaping and array formatting are.

## Findings

| source | as written | input that shows it | evidently intended | confidence | as-written member | corrected member |
|---|---|---|---|---|---|---|
| backend/internal/cache/memory.go:240-254 | evictOldest uses the empty key as its "nothing chosen yet" marker. Once the oldest entry is stored under the empty key, later keys replace it and nothing is deleted. | an unprefixed cache holding "" (expiring at 1) and "a" (expiring at 5), visited "a" first; or a one-entry cache holding "" that then stores "x" and grows to two entries | remove the entry that expires first, whatever its key, so a Set never takes the cache past its limit | needs an empty prefix and an empty key; not executed | MemoryCacheModel.EmptyKeyBlocksEviction | MemoryCacheModel.MemoryCache.EvictOldest |
| backend/internal/i18n/middleware.go:33-38 | an unrecognised `lang` query value is parsed to the default language. That language is supported, so detection stops and the X-Language and Accept-Language headers are never consulted. | lang=fr with X-Language vi gives English | fall through to the next source when the query value names no language | likely; not executed | I18nMiddleware.UnrecognisedQueryHidesHeader | I18nMiddleware.DetectAgreesOnRecognisedValues |
| backend/internal/scheduler/enhanced_backup_scheduler.go:251-254 | Stop cancels the context and closes the stop channel, but both are made only by the constructor (line 66) and Start does not make new ones. After a restart, every goroutine Start launches sees the closed channel and returns at once, and the next Stop closes the channel again, which panics before the running flag is cleared. | Start, Stop, Start, Stop on an enabled scheduler | each Start makes a new stop channel and context, so every Stop of a running scheduler succeeds | high; not executed | BackupScheduler.RestartedStopPanics | BackupScheduler.StopNeverPanics |
| data/extract.py:22-25 | the Python literal '\\\\' is two backslashes. A single backslash is therefore left unescaped, and a double quote becomes two backslashes and a quote, which ends the array element early. | the element lists ["\""] and ["\\"] (a single backslash) give array literals PostgreSQL cannot read back | each element reads back unchanged from the array literal | high; not executed | DataExtract.AsWrittenBreaksOnQuote | DataExtract.FormatSqlArrayRoundTrip |
