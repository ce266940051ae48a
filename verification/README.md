# Blind-charging API: a Dafny model of its core

The blind-charging API takes a prosecutor's case documents, removes what could reveal a
person's race, and delivers the redacted documents back to the caller. This project models
that service's core in Dafny and proves properties of the model. The core covers:

- **The redaction chain.** Each document is fetched from a URL or decoded from inline base64.
  The redaction pipeline runs over it, with an optional quality check. The result is formatted
  as a PDF, a base64 text or a JSON document, and posted to the caller's callback. The run is
  then finalised into a record of the document's status. Failures at any step are carried
  forward as processing errors instead of being raised.
- **The task tables.** Tasks, jobs and callbacks are recorded with their retry and back-off
  rules. A worker claims the oldest pending task, and only one worker can claim it.
- **The case store.** Masked subjects and their aliases are kept per case, over a
  transactional key-value store. Buffered writes are committed or discarded together when the
  session ends, for sessions that do not read with `get` (see Left out). The Redis URL and connection settings are included.
- **The mask enumerator.** It gives each person in a case a stable placeholder name.
- **The embedding codec.** It packs a sequence of 64-bit words into text and reads it back.
- **The generated request and response models.** These are the JSON shapes of requests,
  documents, results, reviews and experiment records, with their parsers and writers.
- **Authentication.** This covers preshared secrets, OAuth client-credentials tokens (issue,
  decode, revoke and validate) and the request-header parsing both use.
- **Experiment recording.** Review exposures and outcomes are recorded, along with the
  review-type decision the experiments handler makes.
- **Small utilities.** These are the fan-out of several functions with an exception policy,
  the lazy proxy, the access-log filter, the Redis-cluster result backend's configuration, the
  provisioning CLI's variable parsing and signature generation, and the integration tests'
  request matcher.

Everything outside the program's own logic is a parameter of the functions that need it:
HTTP, blob storage, the redaction pipeline, JWT signing, argon2 hashing, random tokens and the
clock. Each operation is a pure function over immutable data. Errors are `Result` values.
Python's `None` is `Option`.

## Model

| member | source | states |
|---|---|---|
| Base64.Encode | app/lib/codec/embedding.py:135-137 | `b64encode` writes four characters for every started group of three bytes |
| Base64.Decode | app/lib/codec/embedding.py:67-68 | `b64decode` of a `str` refuses non-ASCII text with the ValueError Python raises |
| Base64.EncodeIsAscii | app/lib/codec/embedding.py:135-137 | every character the encoder writes is ASCII and is an alphabet character or the pad `=` |
| Base64.DecodeEncode | app/lib/codec/embedding.py:67-68 | decoding the encoder's text gives back exactly the bytes encoded |
| Base64.RunTruncated | app/server/tasks/fetch.py:62-63 | dropping the final pad after a two-byte last group makes the decoder fail with "Incorrect padding" |
| Base64.HelloWorld | tests/unit/test_fetch.py:92-108 | "aGVsbG8gd29ybGQ=" decodes to the bytes of "hello world" |
| Base64.HelloWorldUnpadded | tests/unit/test_fetch.py:111-134 | "aGVsbG8gd29ybGQ" is refused with "Incorrect padding" |
| Utf8.EncodeChar | app/server/tasks/fetch.py:60-61 | one to four bytes per character, one exactly for code points below 0x80, continuation bytes in 0x80-0xBF |
| Utf8.DecodeEncode | app/server/tasks/fetch.py:60-61 | a validating UTF-8 decoder reads the encoded bytes back as the original text |
| Utf8.EncodeAscii | app/server/tasks/fetch.py:60-61 | ASCII text encodes one byte per character, each byte its code point |
| Embedding.FromToBytes | app/lib/codec/embedding.py:37-44 | reading back the big-endian bytes of a word gives the word |
| Embedding.Pack | app/lib/codec/embedding.py:72-91 | the packed buffer holds 8 bytes per element |
| Embedding.PackLayout | app/lib/codec/embedding.py:72-91 | element `i` occupies bytes `8i` to `8i+8`, most significant byte first |
| Embedding.Unpack | app/lib/codec/embedding.py:93-108 | unpacking succeeds exactly on whole 8-byte words and yields one element per word |
| Embedding.UnpackPack | app/lib/codec/embedding.py:93-108 | unpacking a packed vector gives the vector back |
| Embedding.CalcBinarySize | app/lib/codec/embedding.py:50-53 | the size is the packed length of every vector with that many elements |
| Embedding.Dimensions | app/lib/codec/embedding.py:122-125 | the dimension count is the packed length divided by the word size |
| Embedding.ToBinary | app/lib/codec/embedding.py:131-133 | the binary form is `calc_binary_size(dimensions)` bytes long |
| Embedding.FromBinary | app/lib/codec/embedding.py:55-70 | raw bytes load exactly when their length is a multiple of 8; a base64 decoding error propagates |
| Embedding.FromBinaryRoundTrip | app/lib/codec/embedding.py:127-141 | writing an embedding as bytes or as base64 and reading it back returns the same vector |
| Fetch.Raw | app/server/generated/models.py:18-48 | a document reaches the task with its id and the attachment type its variant carries |
| Fetch.Content | app/server/tasks/fetch.py:50-68 | LINK downloads, TEXT is UTF-8 encoded, BASE64 is decoded, any other type raises "Unsupported attachment type: <type>" |
| Fetch.Fetch | app/server/tasks/fetch.py:41-84 | success returns the bytes with no errors; a failure retries while retries < 3 and otherwise returns empty bytes and one "fetch" error |
| Fetch.FetchSettles | app/server/tasks/fetch.py:70-84 | a settled fetch carries bytes and no error, or no bytes and exactly one error tagged "fetch" |
| Fetch.FetchText | app/server/tasks/fetch.py:60-61 | inline text is fetched as bytes that decode back to the text |
| Fetch.FetchBase64 | app/server/tasks/fetch.py:62-63 | inline base64 content is fetched as the bytes it encodes |
| Fetch.FetchHelloWorld | tests/unit/test_fetch.py:92-108 | the inline document "aGVsbG8gd29ybGQ=" is fetched as "hello world" |
| Fetch.FetchUnpadded | tests/unit/test_fetch.py:111-134 | the unpadded content ends, retries spent, in one error "Incorrect padding" from "fetch" |
| Fetch.FetchUnsupported | tests/unit/test_fetch.py:137-160 | an unknown attachment type ends in one ValueError naming the type |
| Base64.HelloWorldEncoding | tests/unit/test_fetch.py:98-107 | the bytes of "hello world" encode to "aGVsbG8gd29ybGQ=" |
| Utf8.Encode | app/server/tasks/fetch.py:61-61 | `str.encode("utf-8")` writes at least one byte per character |
| Models.Field | app/server/generated/models.py:14-15 | a field is read only from a JSON object |
| Models.StrField | app/server/generated/models.py:22-26 | a required string field succeeds exactly when the key holds a string, and returns that string |
| Models.OptStrField | app/server/generated/models.py:67-73 | an optional string field accepts absent, `null` or a string, and reads as `None` exactly for absent or `null` |
| Models.UrlField | app/server/generated/models.py:94-94 | a required `AnyUrl` field succeeds exactly when the key holds a string the URL check accepts, and keeps the URL's normal form |
| Models.OptUrlField | app/server/generated/models.py:95-95 | an optional `AnyUrl` field reads absent or `null` as `None`; a string the URL check refuses is an error, and an accepted one is kept in normal form |
| Models.ParseEach | app/server/generated/models.py:226-226 | a list validates element by element; it fails exactly when some element fails, and otherwise keeps one result per element |
| Models.ParseEachMap | app/server/generated/models.py:226-226 | when an element reader inverts its writer, reading the written list gives the list back |
| Models.StrListField | app/server/generated/models.py:204-204 | a list-of-strings field reads back as the list the JSON holds |
| Models.NonEmptyStrListField | app/server/generated/models.py:204-204 | `min_length=1`: an empty list is refused and a non-empty one accepted unchanged |
| Models.StrListRoundTrip | app/server/generated/models.py:204-204 | reading a written list of strings gives the list back |
| Models.ParseContent | app/server/tasks/format.py:157-169 | a JSON document's content needs `original` and `redacted`; `annotations` defaults to `[]` |
| Models.ParseDocument | app/server/generated/models.py:22-51 | the document union is discriminated by `attachmentType`; an unknown tag is refused and only output documents may be JSON; a LINK document whose `url` the URL check refuses is refused, and an accepted one keeps the URL's normal form |
| Models.DocumentRoundTrip | app/server/generated/models.py:22-51 | reading a written document whose URL is in normal form gives the document back |
| Models.ParseMaskedSubject | app/server/generated/models.py:76-78 | a masked subject needs a string `subjectId` and `alias` |
| Models.MaskedSubjectRoundTrip | app/server/generated/models.py:76-78 | reading a written masked subject gives it back |
| Models.ParseTarget | app/server/generated/models.py:92-95 | a target needs a document (not a JSON one) and a callback URL; the blob URL is optional; a callback or blob URL the URL check refuses refuses the target, and accepted ones are kept in normal form |
| Models.TargetRoundTrip | app/server/generated/models.py:92-95 | reading a written target whose URLs are in normal form gives it back |
| Models.ParseSubject | app/server/generated/models.py:87-89 | a subject needs a string `role` and a `subject` |
| Models.NonEmptyListField | app/server/generated/models.py:286-287 | a list field with `min_length=1` succeeds exactly when the key holds a non-empty list whose elements all validate |
| Models.ParseRequest | app/server/generated/models.py:283-287 | a redaction request has at least one subject and at least one object, each an input document |
| Models.RequestKeysDistinct | app/server/generated/models.py:283-287 | the request's four keys are distinct |
| Models.RequestRoundTrip | app/server/generated/models.py:283-287 | reading a written redaction request whose URLs are in normal form gives it back |
| Models.BadCallbackRefused | app/server/generated/models.py:94-94 | a request in which any one object's callback URL fails the URL check is refused as a whole |
| Models.SubjectsRoundTrip | app/server/generated/models.py:87-89 | reading a written list of subjects gives it back |
| Models.ParseEachTargets | app/server/generated/models.py:287-287 | reading a written list of targets whose URLs are in normal form gives it back |
| Models.ParseResult | app/server/generated/models.py:255-274 | the result union is discriminated by `status`; a completed-only reader refuses QUEUED and PROCESSING; success carries a document and an error its message |
| Models.MaskedSubjectsRoundTrip | app/server/generated/models.py:233-233 | reading a written list of masked subjects gives it back |
| Models.ResultRoundTrip | app/server/generated/models.py:229-274 | reading a written redaction result gives it back, for the completed-only reader when it is not pending, when a returned LINK document's URL is in normal form |
| Models.ResultKeysDistinct | app/server/generated/models.py:229-252 | each result variant's keys are distinct |
| Models.ResultCommonFields | app/server/generated/models.py:229-252 | the fields all result variants share read back as written |
| Models.ResultFieldAt | app/server/generated/models.py:229-252 | with distinct keys, a result field is found at its position |
| Models.ParseProtocol | app/server/generated/models.py:168-170 | exactly BLIND_REVIEW and FINAL_REVIEW are protocols, each read as the member of that name |
| Models.ParseFinalDecision | app/server/generated/models.py:103-105 | exactly CHARGE and DECLINE are final decisions |
| Models.ParseBlindDecision | app/server/generated/models.py:121-125 | exactly the four likelihood names are blind decisions |
| Models.ParseReason | app/server/generated/models.py:147-154 | a reason name reads as the one member with that name |
| Models.EnumRoundTrips | app/server/generated/models.py:103-170 | each enumeration's reader inverts its writer |
| Models.EnumField | app/server/generated/models.py:109-111 | an enumeration field succeeds only on a string naming a member |
| Models.ParseReasonJson | app/server/generated/models.py:159-161 | a disqualifying reason is read only from the string naming it |
| Models.ParseReasons | app/server/handlers/experiments.py:170-175 | the reason is one member or a list of them, as the experiments handler reads it (the generated models declare one member), the list read element by element |
| Models.ParseOutcome | app/server/generated/models.py:177-181 | the blind outcome is discriminated by `outcomeType` |
| Models.ParseDecision | app/server/generated/models.py:193-196 | the review decision is discriminated by `protocol`; any other tag is refused |
| Models.ReasonsRoundTrip | app/server/handlers/experiments.py:172-175 | reading written reasons gives them back |
| Models.OutcomeRoundTrip | app/server/generated/models.py:128-165 | reading a written blind outcome gives it back |
| Models.BlindDecisionFields | app/server/generated/models.py:128-140 | a written blind decision's decision, explanation and evidence read back |
| Models.DecisionRoundTrip | app/server/generated/models.py:177-196 | reading a written review decision gives it back |
| Models.ParseSubjectIds | app/server/handlers/experiments.py:46-48 | a subject id is one string or a list of strings, as the experiments handler reads it (the generated models declare one string), read back as the JSON it came from |
| Models.SubjectIdsRoundTrip | app/server/handlers/experiments.py:46-48 | reading written subject ids gives them back |
| Models.ParseExposure | app/server/handlers/experiments.py:46-54 | an exposure has at least one document id, and an empty list is refused; its subject id may be one or a list and it carries an optional `extra`, as the experiments handler reads it |
| Models.ExposureRoundTrip | app/server/generated/models.py:199-205 | reading a written exposure gives it back |
| Models.TimeField | app/server/generated/models.py:98-100 | a required `AwareDatetime` field succeeds exactly when the datetime check accepts the key's value, and keeps the ISO text it gives |
| Models.ParseReview | app/server/generated/models.py:208-215 | a review has at least one document id, and an empty list is refused; its subject id may be one or a list, as experiments.py:77-79 reads it; a `pageOpen` or `decision` timestamp the datetime check refuses (naive or malformed) refuses the review, and accepted ones are kept as their ISO text |
| Models.ReviewRoundTrip | app/server/generated/models.py:208-215 | reading a written review whose timestamps are in ISO form gives it back |
| Models.ReviewHeadFields | app/server/generated/models.py:208-213 | a written review's ids, reviewer and document ids read back |
| Json.EscapeChar | app/server/handlers/experiments.py:55-55 | `json.dumps` writes printable ASCII other than `"` and `\` as itself and escapes everything else with a backslash |
| Json.GetSpec | app/server/store/store.py:164-164 | a key of a loaded object is found exactly when some field has it, and then with the value of its last occurrence |
| Json.StrList | app/server/handlers/experiments.py:55-55 | a list of ids becomes a JSON array with one string per id, in order |
| Json.SortFields | app/server/store/store.py:90-90 | `sort_keys=True` lists the same fields in key order |
| Json.SortedIsCanonical | app/server/store/store.py:90-90 | two key-sorted field lists with the same fields and distinct keys are identical |
| Json.SortedDumpsCanonical | app/server/store/store.py:108-108 | with `sort_keys=True` the rendering of a dict does not depend on its insertion order |
| Json.CanonOfSameDict | app/server/store/store.py:108-108 | two objects with the same fields in any order have the same canonical form |
| Json.OneIdList | tests/unit/test_app.py:21-30 | a one-element id list is stored as the text `["doc1"]` form, the id between quotes |
| Text.Lower | app/server/enumerator.py:86-86 | `lower()` keeps the length and lower-cases each ASCII letter, nothing else |
| Text.RemoveSpaces | app/server/enumerator.py:86-86 | `re.sub(r"\s+", "", ...)` leaves no whitespace and never lengthens; its content is pinned down by `RemoveSpacesConcat`, `RemoveSpacesOfChar` and `RemoveSpacesKeepsOthers` |
| Text.RemoveSpacesConcat | app/server/enumerator.py:86-86 | removing whitespace from a concatenation removes it from each part |
| Text.RemoveSpacesOfChar | app/server/enumerator.py:86-86 | a single whitespace character is dropped and any other character kept |
| Text.RemoveSpacesKeepsOthers | app/server/enumerator.py:86-86 | exactly the non-whitespace characters are kept, one output character per non-whitespace input character |
| Text.Strip | app/server/enumerator.py:99-99 | `strip()` is the middle of the string between its leading and trailing whitespace runs |
| Text.Title | app/server/enumerator.py:99-99 | `title()` upper-cases a letter that starts a run of letters and lower-cases the others |
| Text.LowerOfTitle | app/server/enumerator.py:86-99 | title-casing changes nothing once the text is lower-cased |
| Text.RemoveSpacesOfStrip | app/server/enumerator.py:86-99 | stripping does not change the key the text normalises to |
| Text.LowerIdempotent | app/server/enumerator.py:86-86 | lower-casing twice is lower-casing once |
| Text.NatToString | app/server/enumerator.py:72-72 | a count renders as decimal digits without a leading zero |
| Text.ParseNatToString | app/server/enumerator.py:54-54 | `int()` of a rendered count gives the count back |
| Text.IndexOf | app/server/authn/headers.py:20-20 | the first occurrence of the separator, or the length when there is none |
| Enumerator.NextMask | app/server/enumerator.py:56-72 | the role's counter goes up by one, no other counter moves, and the mask is the label and the new count |
| Enumerator.NextMasks | app/server/enumerator.py:56-72 | one mask per role, in order |
| Enumerator.LeadingDigits | app/server/enumerator.py:51-51 | the run of digits at the front, followed by a non-digit or the end |
| Enumerator.MatchTailIffSplit | app/server/enumerator.py:51-51 | the scanner accepts `\s+(\d+)$` exactly when the text splits as whitespace, digits, then the end or a final newline, and then returns those digits' value |
| Enumerator.FindRoleEnd | app/server/enumerator.py:51-51 | the lazy `(.+?)` group ends at the first valid split, and no split is found exactly when none is valid |
| Enumerator.NewlineEndsRole | app/server/enumerator.py:51-51 | the role group cannot run past a newline |
| Enumerator.ParseMask | app/server/enumerator.py:42-54 | a mask fails exactly when it has no valid split, with "Invalid mask: <mask>"; otherwise the role is the text before the first valid split and the count the digits after it |
| Enumerator.Absorb | app/server/enumerator.py:37-40 | parsing a mask raises its role's counter to the larger of the counter and the mask's count, and no other counter moves |
| Enumerator.InitFrom | app/server/enumerator.py:28-40 | initialisation fails exactly when some mask is invalid |
| Enumerator.InitFromBounds | app/server/enumerator.py:10-11 | after initialisation every counter is at least its start value and at least every count a mask gives for its key |
| Enumerator.InitFromAttained | app/server/enumerator.py:10-11 | every counter that moved holds a count some mask gives for its key, so each counter is that maximum |
| Enumerator.RepeatedRoleCounts | tests/unit/test_enumerator.py:6-11 | repeating one role hands out its counter plus 1, plus 2, and so on |
| Enumerator.RepeatedRoleAdvances | tests/unit/test_enumerator.py:6-11 | repeating one role advances its counter by the number of repetitions |
| Enumerator.KeyOfLabel | tests/unit/test_enumerator.py:26-31 | roles differing in case and whitespace share a counter, and a label normalises to its role's key |
| Enumerator.ParseFormatMask | app/server/enumerator.py:42-72 | a mask `next_mask` produces parses back to its label and count exactly when the role is printable (something besides whitespace, no newline inside the stripped role); for any other role `_parse_mask` refuses it |
| Enumerator.NewlineRoleMaskUnreadable | app/server/enumerator.py:51-72 | as written, a role with a newline inside its stripped text gets a mask `_parse_mask` refuses |
| Enumerator.TrailingNewlineRole | app/server/enumerator.py:51-99 | a newline around the role is stripped: "Judge\n" gets the mask "Judge 1", which reads back |
| Enumerator.BlankRoleMaskUnreadable | app/server/enumerator.py:54-72 | as written, a blank role's mask is " n", which `_parse_mask` refuses |
| Enumerator.BlankRoleBreaksRestart | app/server/enumerator.py:24-57 | as written, stored masks that include a blank role's mask make the constructor raise ValueError |
| Enumerator.CheckedNextMask | app/server/enumerator.py:59-72 | with a check on the role: exactly the roles whose `next_mask` mask `_parse_mask` would refuse are refused (blank, or a newline inside the stripped role), and any other gets the `next_mask` result, whose mask parses back to its label and count |
| Enumerator.CheckedNextMasks | app/server/enumerator.py:59-72 | a run of checked calls succeeds exactly when every role passes the check, and then hands out the same masks as `next_mask` |
| Enumerator.CheckedRestart | app/server/enumerator.py:7-40 | with the check, an enumerator rebuilt from the masks handed out so far always succeeds and has the same counters; the check refuses exactly the runs whose unchecked rebuild would raise |
| Enumerator.AbsorbNextMask | app/server/enumerator.py:37-72 | absorbing a mask the enumerator just produced gives the enumerator it moved to when the role is printable, and raises otherwise |
| Enumerator.ReplayMasks | app/server/enumerator.py:7-26 | feeding the handed-out masks back into initialisation rebuilds exactly the counters that produced them when every role is printable, and raises ValueError otherwise |
| Enumerator.RestartGivesSameNextMask | app/server/enumerator.py:13-16 | an enumerator rebuilt from the masks handed out so far gives the same next mask; once a role that is not printable was served, the rebuild raises |
| Enumerator.InvalidMaskRejected | tests/unit/test_enumerator.py:21-23 | a list containing "Invalid" is refused |
| Store.Apply | app/server/store/redis.py:44-55 | a committed `set` replaces the key's value, `hset` merges the mapping into that key's hash only, and an enqueue appends to the queue |
| Store.Enter | app/server/store/store.py:30-32 | entering the context opens the session and keeps its data and buffer |
| Store.Exit | app/server/store/store.py:34-40 | leaving commits the buffered writes in order when nothing was raised, discards them otherwise, and closes the session |
| Store.Buffer | app/server/store/redis.py:44-55 | a write is queued on the transaction and changes nothing committed |
| Store.Get | app/server/store/redis.py:47-49 | `get` reads the committed value, `None` for a missing key |
| Store.Dequeue | app/server/store/store.py:131-132 | `dequeue` yields the head of the committed queue, `None` when it is empty |
| Store.ReadsIgnoreBuffer | app/server/store/redis.py:44-58 | writes buffered in the transaction are invisible to reads |
| Store.CommitThenGet | app/server/store/store.py:34-46 | after a commit the key holds the value last set |
| Store.RollbackDiscards | app/server/store/store.py:34-40 | a rollback leaves the committed data as it was |
| Store.GetDict | app/server/store/store.py:48-60 | `getdict` is `None` exactly for an absent key or a stored JSON `null`, and otherwise the parsed value or the parse error |
| Store.Loads | app/server/store/store.py:56-60 | `json.loads` of the stored text: its error is passed on, and JSON `null` reads as `None` |
| Store.StoredNullReadsAsNone | app/server/store/store.py:56-75 | a stored `null` reads as `None` from `getdict` and `getmodel`, without validation |
| Store.GetModel | app/server/store/store.py:62-75 | `getmodel` is `None` exactly for an absent key or a stored `null`; otherwise it is the validation of the value `getdict` read |
| Store.DequeueDict | app/server/store/store.py:152-164 | `dequeue_dict` is `None` exactly for an empty queue or a `null` head, otherwise the parsed head; the head's removal is buffered |
| Store.DequeueModel | app/server/store/store.py:166-179 | `dequeue_model` is `None` exactly for an empty queue or a `null` head; otherwise it is the validation of the head `dequeue_dict` read |
| Store.SerializeOfSameDict | app/server/store/store.py:80-150 | equal dicts built in any order are stored as the same text by `setdict`, `sadddict` and `enqueue_dict` |
| Redis.Url | app/server/store/redis.py:15-17 | the URL starts `redis://`, then the host, then a colon |
| Redis.ParseUrlRoundTrip | app/server/store/redis.py:15-17 | host, port and database are read back from the URL |
| Redis.DefaultUrl | app/server/store/redis.py:9-17 | the default configuration connects to `redis://localhost:6379/0` |
| Redis.Init | app/server/store/redis.py:66-67 | `init` creates the pool from the configured URL |
| Redis.TxAsWritten | app/server/store/redis.py:72-75 | as written, `tx` always fails: ValueError before `init`, and afterwards TypeError, because `RedisStoreSession` leaves abstract methods of `StoreSession` unimplemented |
| Redis.InitThenTxAsWrittenFails | app/server/store/redis.py:23-75 | as written, an initialised store's `tx` raises the abstract-class TypeError |
| Redis.Tx | app/server/store/redis.py:72-75 | with a complete session class: a transaction before `init` raises "Store is not initialized"; after it, a fresh session over the data |
| Redis.InitThenTx | app/server/store/redis.py:66-75 | with a complete session class every initialised store opens transactions, and before `init` the as-written and corrected `tx` agree |
| Case.Key | app/server/case.py:7-18 | the key is the jurisdiction, a colon, the case, a colon, then the category |
| Case.KeyInjective | app/server/case.py:7-18 | for colon-free ids, distinct (jurisdiction, case, category) triples give distinct keys |
| Case.GetAliases | app/server/case.py:83-97 | one masked subject per entry of the case's mask hash, with that entry's alias, and no other |
| Case.SaveDocTaskCommitted | app/server/case.py:21-56 | a committed save adds exactly that document's task to its case and leaves other cases' tasks unchanged |
| Case.SaveRolesCommitted | app/server/case.py:59-80 | committed roles are merged into the case's role hash |
| Case.SaveDocTaskNotYetVisible | app/server/case.py:21-56 | before the commit the saved task is not visible to the same session |
| Db.NewTask | app/server/db.py:230-237 | a new task is unclaimed, has no back-off time, and keeps its callback URL and creation time |
| Db.NewJob | app/server/db.py:148-153 | a new job is queued with no error |
| Db.NewCallback | app/server/db.py:191-197 | a new callback is pending with no response and no response code |
| Db.AddJob | app/server/db.py:149-149 | inserting a job that points at an existing task keeps every foreign key valid |
| Db.AddCallback | app/server/db.py:192-192 | inserting a callback that points at an existing task keeps every foreign key valid |
| Db.AddTask | app/server/db.py:217-237 | inserting a task keeps every foreign key valid |
| Db.Start | app/server/db.py:156-164 | the job is set processing with no error; an unknown id changes nothing; no other row moves |
| Db.Success | app/server/db.py:166-174 | an unknown job raises "Job not found."; otherwise the job succeeds with no error, its task is released with its back-off kept, and no other row moves |
| Db.SetError | app/server/db.py:176-185 | an unknown job raises "Job not found."; otherwise the job fails with the message, its task is released and backs off until now plus 60 seconds, and no other row moves |
| Db.CallbackComplete | app/server/db.py:200-214 | an unknown callback raises "Callback not found."; otherwise it succeeds exactly for a 2xx code, keeps code and body, and releases its task |
| Db.Claim | app/server/db.py:278-287 | a claim succeeds exactly on an unclaimed task and marks it claimed; otherwise "Task already claimed." |
| Db.Oldest | app/server/db.py:255-256 | `ORDER BY ... ASC LIMIT 1`: no row exactly when there are none, otherwise a row with the least key |
| Db.Newest | app/server/db.py:295-296 | `ORDER BY ... DESC LIMIT 1`: no row exactly when there are none, otherwise a row with the greatest key |
| Db.NextPendingTask | app/server/db.py:240-259 | the oldest unclaimed task past its back-off with fewer than 3 jobs and none succeeded; `None` exactly when there is no such task |
| Db.NextCallbackTask | app/server/db.py:261-276 | the oldest unclaimed task past its back-off with a callback URL, fewer than 3 callbacks and none delivered; `None` exactly when there is none |
| Db.LatestJob | app/server/db.py:289-298 | the task's most recently created job, `None` exactly when it has no job |
| Db.LatestRedaction | app/server/db.py:90-99 | the file's most recently created redaction, `None` exactly when it has none |
| Db.SucceededTaskNotPending | app/server/db.py:243-254 | right after a job succeeds, its task is not eligible for processing at any time; a later transition of its jobs, such as `Start`, can change that |
| Db.FailedTaskBacksOff | app/server/db.py:176-185 | after a failure the task is not selected again before the retry interval has passed |
| Db.ClaimIsExclusive | app/server/db.py:278-287 | a claimed task is never selected, and claiming it again fails |
| Db.RetryBudgetExhausted | app/server/db.py:253-253 | a task with 3 jobs is no longer selected |
| Db.DeliveredCallbackNotRetried | app/server/db.py:270-271 | right after a 2xx callback completes, the task is not eligible for callbacks at any time; a later transition of its rows can change that |
| Tasks.FromException | app/server/tasks/fetch.py:83-83 | an error recorded by a task carries the exception's text and class name and the task's own tag |
| Tasks.OnFailure | app/server/tasks/fetch.py:73-84 | a failed task is retried exactly while it has run fewer than 3 retries (`max_retries=3`), with the failure as cause, and otherwise settles for its error result |
| Tasks.RetriesAreBounded | app/server/tasks/fetch.py:38-38 | from the third retry on, a failure is never retried again |
| Controller.UrlOrNone | app/server/tasks/controller.py:45-48 | an empty or missing URL becomes `None`; any other is passed on as the normal-form text the request reader stored, which is what `str` of the URL gives |
| Controller.CreateChain | app/server/tasks/controller.py:15-56 | the chain is fetch, redact, format, callback, finalize; the document, jurisdiction, case, subjects and renderer reach the tasks that use them, and blob and callback URLs are `None` when empty |
| Controller.ChainOfTestRequest | tests/unit/test_redact_handler.py:49-97 | the test's object, read from its JSON text through a URL check that normalises "https://echo" to "https://echo/", gives exactly the five task signatures the unit test expects, with the PDF renderer by default |
| Controller.FetchErrorsPassThrough | app/server/tasks/redact.py:81-91 | a failed fetch's errors reach the callback unchanged: redaction and formatting settle at once without calling any service |
| Redact.RendererFor | app/server/tasks/redact.py:207-226 | PDF, TEXT, HTML and JSON each get a renderer; any other format raises `ValueError("Unsupported output format: …")` |
| Redact.RendererRoundTrip | app/server/tasks/redact.py:216-224 | the renderer chosen for a format renders that format, and every renderer is chosen by its own format |
| Redact.SpliceAt | app/server/tasks/redact.py:117-117 | the slice assignment `pipe[at:at] = ins` keeps the prefix, inserts `ins` whole, and keeps the suffix |
| Redact.Pipe | app/server/tasks/redact.py:94-117 | memory input first and memory output last, the configured stages in order after the input, then the embedder exactly when embedding is on, then the renderer just before the output |
| Redact.CheckQuality | app/server/tasks/redact.py:193-204 | a report is refused with `LowQualityError` exactly when its share of valid characters is below the threshold |
| Redact.Attempt | app/server/tasks/redact.py:93-165 | an unknown renderer fails first; a stored id comes only from a pipeline run over the input bytes that passed the quality gate (threshold 1 minus the allowed error rate) |
| Redact.Redact | app/server/tasks/redact.py:77-186 | fetch errors pass through with nothing stored; a clean attempt stores the document with no errors; a failed one is retried while fewer than 3 retries ran, then settles with a "redact" error |
| Redact.RedactStoresIffClean | app/server/tasks/redact.py:85-179 | a settled redaction has a stored document exactly when it has no errors |
| Redact.RedactAsWrittenNeverSucceeds | app/server/tasks/redact.py:120-120 | reading the missing attribute `file_storage_id`, every clean fetch ends in a "redact" error: `AttributeError`, or `ValueError` for an unknown renderer |
| Redact.RedactFetchedBytes | app/server/tasks/redact.py:120-165 | reading the fetched bytes, a clean fetch whose services succeed is redacted from exactly those bytes and the stored id is returned |
| Format.Subscript | app/server/tasks/format.py:164-165 | `json_content[key]` succeeds exactly on a dict holding the key, with its value; a dict without it raises KeyError naming the key, and a list, string, number, boolean or `None` raises the TypeError Python words for that type |
| Format.FormatDocument | app/server/tasks/format.py:132-176 | a blob target gives a LINK document; empty content raises "No redacted content"; a JSON rendering gives a JSON document; anything else is inline base64 of the stored bytes; the document id is kept |
| Format.FormatJsonDocument | app/server/tasks/format.py:157-169 | a JSON rendering yields its `original` and `redacted` members, with `annotations` defaulting to an empty list |
| Format.FormatJsonMissingKey | app/server/tasks/format.py:164-165 | a JSON rendering without `original` or `redacted` raises `KeyError` |
| Format.FormatBase64RoundTrip | app/server/tasks/format.py:170-176 | the inline base64 document decodes back to exactly the stored bytes |
| Format.Attempt | app/server/tasks/format.py:83-106 | with a blob target, empty content raises "Missing redacted content" and a success means the bytes were uploaded to that URL; without one the document is `format_document`'s; a success means the document was saved |
| Format.Format | app/server/tasks/format.py:67-129 | redaction errors pass through; a clean attempt settles with no errors; a failed one is retried while fewer than 3 retries ran, then settles with a "format" error |
| Finalize.StatusOf | app/server/tasks/finalize.py:32-38 | the status is ERROR exactly when there is a redaction error, and COMPLETE otherwise; the row keeps the error and the document id |
| Finalize.FinalizeAsWritten | app/server/tasks/finalize.py:26-42 | with experiments enabled, the task records one status row and returns the formatted document |
| Finalize.FinalizeAsWrittenFailsWhenDisabled | app/server/tasks/finalize.py:28-42 | with experiments disabled, the task as written raises `UnboundLocalError` on every input |
| Finalize.Finalize | app/server/tasks/finalize.py:26-42 | the formatted document is always returned, and one status row is recorded exactly when experiments are enabled |
| Finalize.FinalizeAgrees | app/server/tasks/finalize.py:28-42 | the written task succeeds exactly when experiments are enabled, and then agrees with the corrected one |
| Experiments.ProtocolToReviewType | app/server/handlers/experiments.py:30-38 | the blind protocol is recorded as a blind review and the final protocol as a final review |
| Experiments.FinalDecisionToDecision | app/server/handlers/experiments.py:124-132 | a final decision is stored as charge or decline, charge exactly for CHARGE |
| Experiments.BlindDecisionToDecision | app/server/handlers/experiments.py:135-147 | a blind decision is stored as charge likely, charge maybe or decline likely |
| Experiments.BlindDecisionPreimages | app/server/handlers/experiments.py:142-145 | two blind decisions are stored alike exactly when they are equal or both are "decline" answers; "decline likely" is stored exactly for those two |
| Experiments.ReasonsOneToOne | app/server/handlers/experiments.py:150-167 | the seven disqualifying reasons and the seven stored disqualifiers correspond one to one |
| Experiments.ReasonsToDisqualifiers | app/server/handlers/experiments.py:170-175 | a single reason becomes a one-element list; a list is converted element by element, in order |
| Experiments.FormatBlindOutcome | app/server/handlers/experiments.py:178-207 | a blind decision keeps its explanation and evidence with no disqualifiers; a disqualification is refused exactly when it has no reasons, and otherwise stores them all |
| Experiments.FormatDecision | app/server/handlers/experiments.py:210-223 | a final review gives its decision and explanation with nothing else; a blind review is formatted as its outcome; the review type follows the decision's kind |
| Experiments.FormatDecisionFails | app/server/handlers/experiments.py:199-202 | the only refused decision is a blind disqualification with an empty reason list |
| Experiments.SubjectIdList | app/server/handlers/experiments.py:46-48 | a single subject id becomes a one-element list; a list is kept as it is |
| Experiments.LogExposure | app/server/handlers/experiments.py:41-60 | nothing is recorded when experiments are disabled; otherwise one row per subject, in order, each with the JSON dump of the document ids and the review type of the protocol |
| Experiments.LogOutcome | app/server/handlers/experiments.py:63-94 | nothing is recorded when experiments are disabled; a formatting error becomes a 422 with its message; otherwise one row per subject, in order, each carrying the formatted decision |
| Experiments.ExposureOfOneDocument | tests/unit/test_app.py:21-30 | one subject and the single document "doc1" give exactly one row, whose document ids are stored as `["doc1"]` |
| Func.FirstFailure | app/func.py:39-47 | the index of the first function that raises: all before it succeed, it raises, and it is the length exactly when none raises |
| Func.Loop | app/func.py:36-47 | without EAGER every function runs and contributes its result or `None`, and each exception is appended in order; under EAGER the first exception is raised at once, after being appended |
| Func.Allf | app/func.py:18-34 | the combined function keeps its functions and policy and starts with an empty exception list |
| Func.Invoke | app/func.py:36-54 | a call only appends to the shared list, and appends exactly when some function raises; under LAZY it raises exactly when the shared list is non-empty, and raises its first entry |
| Func.InvokeFresh | app/func.py:5-15 | with a list of its own, QUIET always returns; EAGER and LAZY raise exactly when a function raises, and raise the first one's exception; a returned list holds each function's result or `None`, in order |
| Func.EagerStopsAtFirstFailure | app/func.py:46-47 | under EAGER the functions after the first one that raises are never consulted |
| Func.FirstFailureAt | app/func.py:39-47 | a function that raises after a run of functions that do not is the first failure |
| Func.LazyReRaisesEarlierException | app/func.py:34-50 | as written, a LAZY combined function that raised once raises the same exception again on a later call on which every function succeeds |
| Func.LazyFreshCallReturns | app/func.py:48-52 | with a list per call, that later call returns every function's result |
| Headers.Partition | app/server/authn/headers.py:20-20 | `partition(" ")` splits at the first separator: the head has none, and head, separator and tail give back the string; without a separator the whole string is the head |
| Headers.BearerToken | app/server/authn/headers.py:4-24 | a token exactly for a non-empty header whose scheme is `bearer` in any case; the token is everything after the first space, or empty when there is none |
| Headers.SchemeIsBearer | app/server/authn/headers.py:20-22 | the part before the first space is `bearer` in any case exactly when the header starts with those six letters followed by a space or by nothing |
| Headers.BearerOfToken | app/server/authn/headers.py:20-24 | a bearer scheme, a space and a token yield exactly that token, spaces inside it included |
| Headers.BareScheme | app/server/authn/headers.py:20-24 | a header that is the bare scheme yields the empty token |
| Preshared.Secrets | app/server/authn/preshared.py:41-42 | a single secret gives a one-element set; a list gives the set of its members |
| Preshared.ValidateRequest | app/server/authn/preshared.py:44-49 | a request passes exactly when its bearer token is non-empty and among the secrets; a missing or empty token is "Missing bearer token", any other "Invalid bearer token" |
| Preshared.ConfiguredSecretAccepted | app/server/authn/preshared.py:14-21 | every configured non-empty secret is accepted when presented as a bearer token |
| Preshared.EmptySecretNeverAccepted | app/server/authn/preshared.py:46-47 | an accepted token is never empty, so an empty configured secret is never matched |
| Preshared.SomethingSecret | tests/unit/test_authn.py:26-79 | with the secret `something`, a wrong bearer token is invalid, and a header of another shape or no header is missing |
| ClientCredentials.Dump | app/server/authn/client_credentials.py:31-38 | the dumped claims hold `jti`, `sub` and `scope` as strings and `iat` and `exp` as integers, and no `nbf` |
| ClientCredentials.ModelValidate | app/server/authn/client_credentials.py:103-103 | claims validate exactly when all five fields are present with their types, and the token data carries their values |
| ClientCredentials.ValidateDump | app/server/authn/client_credentials.py:103-122 | dumped token data validates back to the same data |
| ClientCredentials.TimeCheck | app/server/authn/client_credentials.py:94-101 | claims are current exactly when any `nbf` is not after now and any `exp` is not before now; "Token expired" means `exp` has passed; a claim that is not a number raises `TypeError` |
| ClientCredentials.ExpiryBoundary | app/server/authn/client_credentials.py:99-101 | a token without `nbf` is current up to and including its `exp` second, and expired after it |
| ClientCredentials.FirstDecisive | app/server/authn/client_credentials.py:81-108 | the keys are tried in order: the first decisive key's outcome is returned, and the fallback when no key is decisive |
| ClientCredentials.TryKeyAsWritten | app/server/authn/client_credentials.py:81-107 | as written, a key ends the search exactly when the token's signature checks under it, even when the token is outside its time window |
| ClientCredentials.TryKey | app/server/authn/client_credentials.py:81-107 | as intended, a key is skipped when the signature fails or the token is outside its time window; a success means verified, current and validated claims |
| ClientCredentials.Decode | app/server/authn/client_credentials.py:65-108 | a decoded token was verified, current and valid under one of the keys |
| ClientCredentials.InvalidDataStopsSearch | app/server/authn/client_credentials.py:106-107 | current claims that fail validation end the search with "Token data invalid", whatever later keys hold |
| ClientCredentials.ExpiredKeyEndsSearchAsWritten | app/server/authn/client_credentials.py:100-105 | as written, an expired token under the first key raises a `PyJWTError`, even when the second key holds a current token |
| ClientCredentials.ExpiredKeySkipped | app/server/authn/client_credentials.py:81-108 | as intended, that expired token is skipped and the second key's claims are returned |
| ClientCredentials.DefaultConfig | app/server/authn/client_credentials.py:55-56 | the default algorithms are `["HS256"]` and the default expiry is 86400 seconds |
| ClientCredentials.KeysAsWritten | app/server/authn/client_credentials.py:134-134 | as written, a single secret gives one key per character, and a list is kept |
| ClientCredentials.SecretSplitIntoCharacters | app/server/authn/client_credentials.py:134-134 | a secret of two or more characters is not among its own keys as written, and tokens are signed with its first character |
| ClientCredentials.Keys | app/server/authn/client_credentials.py:126-136 | as intended, a single secret is the only key, a list is kept, and the keys are exactly the configured secrets |
| ClientCredentials.NewDriver | app/server/authn/client_credentials.py:58-62 | the driver keeps the configured keys, algorithms and expiry |
| ClientCredentials.GetClient | app/server/authn/client_credentials.py:242-266 | a client is returned exactly when its id is found and its secret checks out; an unknown id is "Invalid client" |
| ClientCredentials.Trunc | app/server/authn/client_credentials.py:199-199 | `int()` of a timestamp truncates toward zero |
| ClientCredentials.IssueToken | app/server/authn/client_credentials.py:181-213 | a failed client check is passed on; otherwise a token is issued exactly when there is a key and an algorithm, signed with the first of each, expiring after the configured seconds, of type "Bearer" |
| ClientCredentials.IssuedData | app/server/authn/client_credentials.py:199-207 | the token is issued at the whole second and expires the configured number of seconds later, for the client, in the default scope |
| ClientCredentials.ValidateRequest | app/server/authn/client_credentials.py:138-163 | a missing token is "Missing bearer token"; an undecodable one is "Invalid bearer token"; a revoked one is "Token revoked"; a request passes exactly with a decoded, unrevoked token |
| ClientCredentials.RevokeToken | app/server/authn/client_credentials.py:215-240 | the client is checked first; the revocation succeeds exactly when the token decodes, and is kept until its expiry plus the buffer |
| ClientCredentials.IssuedTokenValidates | app/server/authn/client_credentials.py:181-213 | an issued, unrevoked token is accepted with the claims it was issued with up to its expiry second, and refused after it |
| ClientCredentials.RevokedTokenRefused | app/server/authn/client_credentials.py:160-161 | once its id is revoked, a token that still decodes is refused as revoked |
| LogFilter.Filter | app/server/log_util.py:26-49 | the final level is ERROR for a 5xx status, WARNING for a 4xx one, DEBUG for a successful health check and unchanged otherwise; a changed level gets its name; the record is kept exactly when its level is at least the logger's; nothing else in the record changes |
| LogFilter.FilterKeepsNameConsistent | app/server/log_util.py:35-43 | a record whose level name matched its level still matches after the filter |
| LogFilter.HealthChecksHiddenAtInfo | app/server/log_util.py:52-60 | with the logger at INFO a successful health check is hidden, and 4xx and 5xx records are shown as WARNING and ERROR |
| LogFilter.OtherRecordsUnchanged | app/server/log_util.py:35-49 | any other record below status 400 passes unchanged, exactly when its own level is at least the logger's |
| Lazy.New | app/server/lazy.py:4-13 | a new proxy keeps the loader and its arguments and has loaded nothing |
| Lazy.GetAttr | app/server/lazy.py:15-19 | the loader is called exactly when nothing is cached; a cached object answers directly; a loader that raises leaves the proxy as it was; a successful read leaves an object cached |
| Lazy.Reset | app/server/lazy.py:21-33 | a reset drops the cached object and replaces the arguments, keeping the loader |
| Lazy.Reads | app/server/lazy.py:15-19 | over a run of reads the loader is called at most once per read, and the loader and arguments never change |
| Lazy.LoadsOnce | app/server/lazy.py:15-19 | a loader that returns an object is called once, however many attributes are read |
| Lazy.NoneReloadsEveryTime | app/server/lazy.py:16-18 | a loader that returns `None` is called again on every read |
| Lazy.ResetLoadsWithNewArgs | app/server/lazy.py:21-33 | after a reset the next read calls the loader with the new arguments and answers from its object |
| Review.Id | app/server/handlers/review.py:15-17 | the entity id is the jurisdiction id, a colon, and the case id |
| Review.IdPrefixesKeys | app/server/handlers/review.py:15-17 | the entity id followed by a colon prefixes every one of the case's store keys |
| Review.IdInjective | app/server/handlers/review.py:15-17 | when jurisdiction ids hold no colon, equal entity ids mean the same jurisdiction and case |
| Review.GetBlindReviewInfo | app/server/handlers/review.py:20-42 | the info echoes the jurisdiction and case, blind review is required exactly when the gater says so, and the masked names are listed only then |
| Review.UnblindedRevealsNothing | app/server/handlers/review.py:33-35 | for an unblinded case the answer does not depend on what the store holds |
| Meta.Entries | app/server/meta.py:134-135 | every worker entry of every reply is visited, and only those |
| Meta.Classify | app/server/meta.py:134-139 | every entry is classified once: healthy exactly when it answered `pong`, unhealthy exactly when it did not |
| Meta.WorkerHealth | app/server/meta.py:130-145 | the total counts replies; healthy and unhealthy together count the entries; the status is "ok" exactly when some worker answered `pong`, and "error" otherwise |
| Meta.TotalCountsReplies | app/server/meta.py:141-141 | one reply naming two workers counts as one worker |
| Meta.Contains | app/server/meta.py:268-270 | `needle in haystack` holds exactly when the needle occurs at some index |
| Meta.Negotiate | app/server/meta.py:266-271 | an explicit format wins; otherwise html when the `accept` header names text/html, else json when it names application/json, else none |
| Meta.Status | app/server/meta.py:259-287 | 200 exactly when the service is alive and a worker answered, else 500; json and html are served in their own form; any other format is a 400 naming it |
| Meta.HtmlBeforeJson | app/server/meta.py:268-271 | a header naming both types gets html |
| Meta.ExplicitFormatIgnoresAccept | app/server/meta.py:266-271 | with an explicit format, the `accept` header makes no difference to the response, and `format=json` is always answered in JSON |
| Meta.NoFormatRefused | app/server/meta.py:266-287 | with no format and no `accept` header the request is refused with "Invalid format `None`" |
| RedisCluster.StripSlashes | app/lib/backend/rediscluster.py:102-102 | `lstrip("/")` removes exactly the leading slashes |
| RedisCluster.CopyPresent | app/lib/backend/rediscluster.py:113-123 | a key is copied, unquoted, exactly when the query holds it (non-empty, for the TLS settings); other parameters are kept |
| RedisCluster.ConnParams | app/lib/backend/rediscluster.py:95-125 | host, port, password and `ssl` always, `ssl` true exactly for `redisclusters`; `max_connections` and `new_join` exactly when in the query; each TLS setting exactly when TLS is on and the setting is non-empty; no other key |
| RedisCluster.ParseParams | app/lib/backend/rediscluster.py:84-125 | an empty URL gives no parameters; a path naming another database is refused with the non-0 DB message; anything else gives the connection parameters |
| RedisCluster.DefaultDbAccepted | app/lib/backend/rediscluster.py:101-104 | no path, or the path `/0`, is accepted |
| RedisCluster.New | app/lib/backend/rediscluster.py:59-82 | a missing library, then a missing URL, then a bad path is refused with its message; a backend keeps the URL and exactly the parsed parameters minus `new_join` |
| RedisCluster.NoTlsWithoutSecureScheme | app/lib/backend/rediscluster.py:96-123 | a `rediscluster://` URL gets `ssl` false and no TLS settings, even when its query carries them |
| RedisCluster.NewJoinFromQuery | app/lib/backend/rediscluster.py:71-78 | `new_join` from the query is read as a boolean, and its error is raised; without it chords join the old way |
| RedisCluster.ChordPartReturn | app/lib/backend/rediscluster.py:217-240 | a part without task or group id is skipped; the callback fires exactly when the ready count equals the chord size plus the stored adjustment (0 when unset) |
| RedisCluster.FiresOnce | app/lib/backend/rediscluster.py:235-240 | as the parts of a group arrive one by one, exactly the part that brings the ready count to the chord size plus the stored adjustment fires the callback, every other part waits, and that part exists when the total is between 1 and the number of parts |
| TestUtil.LowerNames | tests/integration/testutil.py:55-55 | the lower-cased names are exactly the header names lower-cased, and when two agree the later header's value wins |
| TestUtil.Observe | tests/integration/testutil.py:52-56 | an observed request keeps path, method and body, and every header name it stores is lower-case |
| TestUtil.HeadersMatch | tests/integration/testutil.py:69-72 | the headers match exactly when every expected header is present under its lower-cased name with the expected value |
| TestUtil.Equals | tests/integration/testutil.py:58-81 | any other object, another path or another method ignoring case gives false; decoding the body can only raise when a non-empty JSON body is expected |
| TestUtil.EqualsIffAgree | tests/integration/testutil.py:58-81 | equal exactly when paths agree, methods agree ignoring case, every expected header is present with its value, and the body agrees |
| TestUtil.ExtraHeadersIgnored | tests/integration/testutil.py:69-72 | headers the expectation does not name make no difference |
| TestUtil.AnyBodyWithoutExpectation | tests/integration/testutil.py:74-81 | without an expected body any observed body matches |
| TestUtil.JsonBodyTakesPrecedence | tests/integration/testutil.py:74-79 | a non-empty expected JSON body decides alone; the expected raw body is not consulted |
| TestUtil.CaseInsensitiveNames | tests/integration/testutil.py:55-72 | the method is compared ignoring case, and a header is found whatever the case of its name on the wire |
| Provision.TypeNamed | cli/provision.py:42-49 | a Terraform spelling names a type exactly when it is that type's spelling; any other spelling names none |
| Provision.EnsureBool | cli/provision.py:36-39 | a boolean passes through; text is true exactly when its lower-case form is yes, true, t or 1 |
| Provision.EnsureBoolIgnoresCase | cli/provision.py:39-39 | reading text as a boolean does not depend on its case |
| Provision.Parse | cli/provision.py:42-46 | strings pass through, booleans are read by `_ensure_bool`, and maps by `json.loads`, which refuses a flag with `TypeError` |
| Provision.ParseVar | cli/provision.py:64-88 | a declaration with other than one key is refused; a parsed variable has the declared type, the description or "" by default, is required exactly when there is no default, and holds the default or `None` |
| Provision.PickKey | cli/provision.py:66-70 | the key of a one-key dict is its only key |
| Provision.ParseDeclaration | cli/provision.py:64-88 | parsing a variable's own declaration gives the variable back |
| Provision.InsertStable | cli/provision.py:106-106 | one step of the stable sort adds exactly one element |
| Provision.SortByRequired | cli/provision.py:106-106 | the sort keeps the number of variables |
| Provision.SortedOptionalFirst | cli/provision.py:106-106 | `sorted(..., key=required)` lists the optional variables and then the required ones, each group in declaration order |
| Provision.PartitionPermutes | cli/provision.py:106-106 | splitting by `required` loses and adds no variable |
| Provision.ParamDecls | cli/provision.py:103-108 | one parameter `name: Optional[type] = None` per variable, in sorted order, with the command-line type of each |
| Provision.PassAlong | cli/provision.py:109-109 | one `name=name` argument per variable, in declaration order |
| Provision.SignatureListsEveryVariable | cli/provision.py:103-108 | the generated signature lists every variable and no other, never an optional one after a required one |
| Provision.Initial | cli/provision.py:128-136 | a command-line value, parsed, replaces the default and its parse error is raised; a value still unset is auto-generated for the two names that are |
| Provision.AutoGeneratedOnlyWhenUnset | cli/provision.py:58-61 | only `db_password` (32 bytes) and `app_auth_secret` (64 bytes) are generated, and only when unset |
| Provision.ReadLine | cli/provision.py:140-140 | `input()` returns the next line, and raises `EOFError` exactly when the input has run out |
| Provision.Confirm | cli/provision.py:144-146 | the loop returns a lower-cased answer among yes, no, y and n, having consumed at least one line; otherwise the input runs out |
| Provision.ConfirmNeedsAnswer | cli/provision.py:145-146 | the loop ends exactly when some line, lower-cased, is an answer |
| Provision.ConfirmStopsAtFirstAnswer | cli/provision.py:145-146 | the loop stops at the first answer, every earlier line skipped, and leaves the lines after it |
| Provision.TypeIn | cli/provision.py:140-141 | a typed value is the next line parsed by the variable's type |
| Provision.Ask | cli/provision.py:137-149 | a required variable still unset is typed in; otherwise "y"/"yes" keeps the value and "n"/"no" has a new one typed in |
| Provision.Resolve | cli/provision.py:128-149 | only the value of the variable changes, the input is consumed from the front, and a command-line parse error is raised |
| Provision.GivenValueKept | cli/provision.py:130-147 | a value given on the command line and confirmed is the value kept |
| Provision.ResolveAll | cli/provision.py:128-152 | every variable is settled in turn, in order, and only its value changes |
| Provision.LastValue | cli/provision.py:155-155 | `{v.name: v for v in cfg_vars}[name]` finds the value of a variable with that name, and nothing exactly when there is none |
| Provision.Emit | cli/provision.py:52-55 | `app_auth_secret` is written exactly when `app_auth` is not "none", `waf` exactly when `expose_app` is truthy, and each raises `KeyError` when the variable it reads is missing; other variables are always written |
| Provision.Emitted | cli/provision.py:156-161 | the variables written are exactly those of the list whose condition holds |
| Provision.ConditionalVariables | cli/provision.py:52-55 | the API secret is written exactly when authentication is not "none", the firewall setting exactly when the app is exposed, and every other variable always |
| Provision.MaxNameLength | cli/provision.py:150-152 | the width is the length of the longest name, 0 for no variables |
| Provision.Lines | cli/provision.py:156-161 | one line per written variable, in order |
| Provision.LinesAligned | cli/provision.py:158-158 | every line starts with the name padded with spaces to the width, then ` = `, then the value as JSON |
| Provision.CliProvision | cli/provision.py:124-162 | a failure while settling is raised; the output is the written variables' lines joined by newlines, padded to the longest name of all variables |

## Left out

- HTTP requests, blob storage, the redaction pipeline, JWT signing and verification, argon2 hashing, random token generation and the clock are oracles passed as parameters. Their behaviour is not modelled, only how the core uses their results.
- Floating point: the embedding codec treats each 64-bit word as an opaque bit pattern and does not model IEEE 754 doubles. The quality check's scores are reals.
- JSON numbers are integers: the JSON values of the model have no floats.
- ClientCredentials.TimeCheck: a float `exp` or `nbf` claim, which the program compares with the float `now().timestamp()`, cannot be expressed.
- Provision.Parse: a float value in a variable definition cannot be expressed.
- URL validation and normalisation (pydantic's `AnyUrl`) and timezone-aware datetime parsing (`AwareDatetime`) are oracles passed as parameters to the readers that use them. Which texts they accept and the normal forms they give are not modelled. The round trips require URLs and timestamps already in normal form, which the oracle gives back unchanged.
- Format.FormatDocument, Format.Attempt: rebuild the LINK document from the blob URL text it is passed, as `AnyUrl(target_blob_url)` does. The model keeps that text. Since it is the normal form the request reader stored, this matches the program as long as normalising a normal form changes nothing.
- ClientCredentials.ModelValidate: Pydantic's lax coercion (for example a numeric string accepted as an int) is not modelled. Only values of the declared JSON type are accepted.
- Unicode character classes are modelled for ASCII only. `str.lower()` and `str.title()` change only ASCII letters. Whitespace is the ASCII whitespace of `str.isspace()`, used for `\s` in `re`, for `str.strip()` and for `str.split()`. A digit is `0`–`9`, used for `\d` in `re` and for `int()`. Python also treats other characters as whitespace (U+00A0, U+2003) and as digits (Arabic-Indic digits). On such input the model and the program differ: the program keys `"Police\u00a0Officer"` to `"policeofficer"`, and it parses the mask `"Judge \u0661"` with count 1.
- Subject person records are kept as JSON values. Their inner fields are not parsed, since the core only passes them through.
- The generated models module is older than the task and handler modules. `OutputDocument`'s JSON variant and the fields those modules read are declared from the places that use them. Three fields follow the experiments handler rather than `generated/models.py`: the subject id of an exposure and of a review may be one string or a list (experiments.py:46-48 and :77-79; models.py:202 and :211 declare one string); an exposure carries an optional `extra` (experiments.py:54; absent at models.py:199-205); and the disqualifying reason may be one member or a list (experiments.py:170-175; models.py:159 declares one member). Against the generated models as they stand, a list subject id is refused with 422 and reading `extra` raises AttributeError.
- The modules come from more than one revision of the repository, and their imports do not all resolve against each other. `tasks/redact.py` and `tasks/format.py` import `save_retry_state_sync` from `case_helper.py`, which does not define it. `tasks/redact.py`, `tasks/format.py` and `handlers/review.py` import `CaseStore` and `MaskInfo` from `case.py`, which defines only module-level functions. `authn/client_credentials.py` imports `Client`, `RdbmsConfig` and `Revocation` from `db.py`, which defines none of them. Each module is modelled from its own text. The store functions of `case.py` are modelled as written. Review.GetBlindReviewInfo receives the masked names as a parameter, because `CaseStore.get_masked_names` has no text here. The client-credentials tables are sets and oracles. The redaction Findings row about `file_storage_id` reads `tasks/redact.py` against `tasks/fetch.py`, and `tests/unit/test_redact.py` expects yet another shape of the fetch result.
- The Redis store session's `enqueue`, `dequeue`, `expire_at` and `time` are abstract in the store base class and absent from the Redis session. As written, that makes `tx` raise TypeError, which is recorded under Findings. The queue operations are modelled on a committed list as the base class's interface describes them. Expiry and server time are not modelled.
- Redis.TxAsWritten: the TypeError's message uses the wording of Python before 3.12. Later versions word it differently.
- Store.Buffer: the session model assumes that every write is buffered until commit. In redis-py, `get` calls `WATCH` on the pipeline, and after `WATCH` a pipeline runs commands immediately until `MULTI`. So writes made after a `get` in the same session take effect at once. The redis-py library is not part of this model.
- Store.Exit: for the same reason, a session that called `get` does not commit or discard all its writes together, and its commit can fail with `WatchError`. Neither is modelled.
- Store.ReadsIgnoreBuffer: holds for sessions that have not called `get`. After a `get`, later writes are visible at once.
- Store.RollbackDiscards: holds for sessions that have not called `get`. After a `get`, later writes survive a rollback.
- UTF-8 encoding is modelled for Unicode scalar values. Lone surrogates, which Python refuses to encode, cannot occur in the model's strings.
- The callback task's body is not part of this model. Its result shape is taken from how finalisation reads it.
- Finalize.FinalizeAsWritten: the `UnboundLocalError` is modelled as an error value. Its exact message text is not.
- The provisioning CLI's interactive prompts are a stream of input lines. The prompt text itself is not modelled.
- Whether the redis-py library is installed is a boolean parameter of the Redis-cluster backend.
- The Redis-cluster backend's chord join, result unpacking and Redis pipeline calls are not modelled. Only the readiness test that decides when a chord's callback fires is modelled.
- The revoked-token table is a set of token ids. Its SQL schema is not modelled.
- Provision.SignatureListsEveryVariable: states that the signature has one entry per variable and the same members. It does not state multiset equality, because the variable names are distinct.
- The text of the function the provisioning CLI generates is not modelled, only its signature's parameter list and order.
- Provision.ParseVar: the `TypeError` for an unhashable `type` value is not modelled. The message of the error for a definition that is not a mapping is the model's own, and a non-string `type` is rendered as JSON rather than by Python's `str()`.
- Provision.ParseVar: `str()` of the variable declaration, used in the "Invalid variable" message, is an oracle.
- TestUtil.SameValue: Python's `1 == True` and `1 == 1.0` equalities between JSON values are not modelled.
- Case.GetAliases: returns a set of aliases. The iteration order of Python's set is not modelled.
- The API accepts any string as a role. A role that is blank, or has a newline inside its stripped text, gets a mask the program cannot read back, which is recorded under Findings. A newline before or after the role is stripped and does no harm.
- UUIDs are natural numbers. The database's times and the issued token claims (`iat`, `exp`) are whole seconds since the epoch; the clock they are cut from is a real number of seconds. Review timestamps are the ISO text the datetime check gives.
- The database's foreign keys appear as requires clauses on Db.AddJob and Db.AddCallback, which say the referenced task must exist. Db.AddTask requires a fresh id.
- `Task.get_redaction` and the other database helpers that only run SQL queries are not modelled beyond the lookups listed above.
- ProcessingError's definition is not part of this model. Its shape (a message and the task that raised it) is taken from its uses.
- ClientCredentials.NewDriver, ClientCredentials.ValidateRequest, ClientCredentials.RevokeToken, ClientCredentials.IssuedTokenValidates: these are built on the corrected key list and decoder of the two client-credentials Findings rows. As written, a single secret string gives one key per character. An expired token that verifies under some key escapes `validate_request` as `PyJWTError` instead of `NotAuthenticated("Invalid bearer token")`.
- Concurrency, Celery's retry scheduling and the metrics exporters are not modelled. Retries are counted, not scheduled.
- Experiment configuration versioning exists in the database schema only. No operation of the core reads it, so it is not modelled.
- Experiments: the `ValueError` raised for an unknown protocol or decision value cannot occur, because those values are closed datatypes in the model.
- Unit tests that no longer match the code they test are not modelled. Where a test and the code disagree, the model follows the code.

## Findings

| source | as written | input that shows it | evidently intended | confidence | as-written member | corrected member |
|---|---|---|---|---|---|---|
| app/server/tasks/finalize.py:28-42 | `format_result` is only bound inside `if config.experiments.enabled:`, but the return statement reads it in every case | experiments disabled: `finalize` raises `UnboundLocalError` | read `callback_result.formatted` before the branch, so finalisation returns the document whether experiments are on or off | not executed | Finalize.FinalizeAsWritten, Finalize.FinalizeAsWrittenFailsWhenDisabled | Finalize.Finalize, Finalize.FinalizeAgrees |
| app/server/tasks/redact.py:120 | the input is loaded from `fetch_result.file_storage_id`, a field the fetch result does not have | any fetched document: the attribute read fails, so no redaction succeeds | load the document from the bytes the fetch task returned | not executed; low, since the modules come from mixed revisions | Redact.InputAsWritten, Redact.RedactAsWrittenNeverSucceeds | Redact.FetchedBytes, Redact.RedactFetchedBytes |
| app/func.py:34,48-50 | under the LAZY policy, the exception list is created once per combined function and shared by every call to it | a first call where one function raises, then a second call where none raise: the second call re-raises the first call's exception | collect exceptions per call | not executed | Func.Invoke, Func.LazyReRaisesEarlierException | Func.InvokeFresh, Func.LazyFreshCallReturns |
| app/server/authn/client_credentials.py:134 | a secret given as one string is turned into a list with `list(secret)` | secret `"abc"`: the keys become `"a"`, `"b"`, `"c"` | a single string is a one-key list, `[secret]` | not executed | ClientCredentials.KeysAsWritten, ClientCredentials.SecretSplitIntoCharacters | ClientCredentials.Keys, ClientCredentials.NewDriver |
| app/server/authn/client_credentials.py:96-105 | an expired or not-yet-valid token raises `jwt.PyJWTError`, which `except jwt.InvalidTokenError` does not catch | keys `[k1, k2]`: the token verifies under `k1` but is expired there, and is current under `k2`. The loop ends with `PyJWTError("Token expired")` and never tries `k2` | treat a failed time check like any other invalid token under that key and move on to the next key | not executed; medium | ClientCredentials.DecodeAsWritten, ClientCredentials.ExpiredKeyEndsSearchAsWritten | ClientCredentials.Decode, ClientCredentials.ExpiredKeySkipped, ClientCredentials.ValidateRequest, ClientCredentials.RevokeToken, ClientCredentials.IssuedTokenValidates |
| app/server/store/redis.py:23-75 | `RedisStoreSession` does not implement the abstract `expire_at`, `enqueue`, `dequeue` and `time` of `StoreSession` (store/store.py:125-132, 181-182), and `tx` instantiates it | any `tx()` after `init()`: Python raises TypeError, "Can't instantiate abstract class RedisStoreSession ..." | the Redis session implements the whole session interface, so `tx` opens a transaction | not executed | Redis.TxAsWritten, Redis.InitThenTxAsWrittenFails | Redis.Tx, Redis.InitThenTx |
| app/server/enumerator.py:54-72 | `next_mask` accepts any role, but `_parse_mask` needs at least one character of role before the whitespace and no newline in it | role `""`: `next_mask` hands out `" 1"`, and `RoleEnumerator([" 1"])` raises "Invalid mask:  1"; likewise role `"A\nB"` | every mask handed out can be read back when the enumerator is rebuilt, for example by refusing such roles up front | not executed; medium | Enumerator.BlankRoleMaskUnreadable, Enumerator.NewlineRoleMaskUnreadable, Enumerator.BlankRoleBreaksRestart, Enumerator.ReplayMasks | Enumerator.CheckedNextMask, Enumerator.CheckedNextMasks, Enumerator.CheckedRestart |
