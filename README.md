# Gmail cleaning assistant — triage core in Dafny

This project models the pure triage core of the Gmail cleaning assistant, a Streamlit app in
`gmail_cleaning_asistant.py`. The app does four things:

- It lists up to ten of the most recent messages and normalises each one into `{id, subject, content, size}`.
  The subject is the first header named "subject" in any letter case. For a multi-part payload the content
  is the decoded `text/plain` parts, joined in order. For a single-part payload it is the decoded body,
  whatever its MIME type, so an HTML-only message gives its HTML. Content over 500 characters is cut there
  and gets a `...` marker. The size is the service's size estimate.
- It asks a language model for a `CATEGORY | Reason` answer per message.
- It parses that answer with an ordered fallback chain: the first `" | "` split, else a CRITICAL/KEEP/DELETE
  keyword scan, else KEEP.
- It collects the messages whose category is exactly `DELETE` and sums their sizes. After the user
  confirms, it trashes them.

Modules, leaves first:

- `Results` (`results.dfy`): `Option` and `Result`.
- `Text` (`text.dfy`): first-occurrence search. This is what Python's `pat in s` and `s.split(pat, 1)` do.
- `Normalizer` (`normalizer.dfy`): the subject lookup, the `text/plain` concatenation (a loop with an
  accumulator, proved against a specification function), the truncation, and the per-message record.
- `Fetch` (`fetch.dfy`): the list request capped at ten and the `append` loop that builds the batch.
  Any failure aborts the batch.
- `Classifier` (`classifier.dfy`): the answer parser and `analyze_email`.
- `Triage` (`triage.dfy`): the analysis loop, the DELETE filter with its byte sum, and the trash requests
  gated by the confirmation.

External collaborators become parameters:

- Base64url and UTF-8 decoding is a function `decode: string -> Option<string>`. `None` means the library
  call raises.
- The mailbox is a value: the ids, most recent first, and the message stored under each id.
- The model's answers are a sequence of strings. The i-th string answers the i-th call.
- The user's confirmation is a boolean.

Behaviour of the code that the model keeps as it is:

- The category before `" | "` is taken verbatim. It is not trimmed and not checked against the three
  literals (lines 120-121), although the prompt asks for one of them (lines 35-41).
  `Classifier.SplitCategoryIsUnchecked` and `Classifier.SplitCategoryIsNotTrimmed` show this.
- A get or decode failure raises and ends the whole fetch. `main` catches it (lines 201-202). The model
  returns `Err` for the whole batch, with the error of the first failing message.
- A failed trash call raises and ends the run (lines 170-171). The model produces only the ordered list
  of trash requests, so the point where such a failure would stop the loop is not modelled.

## Model

| member | source | states |
|---|---|---|
| `Text.FindFrom` | gmail_cleaning_asistant.py:120-121 | the result is an occurrence of the pattern with no occurrence before it, or there is no occurrence at all; this is the search behind the separator test and the split at its first occurrence |
| `Normalizer.Subject` | gmail_cleaning_asistant.py:80 | the subject is the value of the first header whose lower-cased name is "subject"; with no such header it is "No Subject" |
| `Normalizer.PlainTextAppend` | gmail_cleaning_asistant.py:84-88 | the body text of two runs of parts put together is the first run's text followed by the second's; a failure in either is a failure of the whole |
| `Normalizer.PlainTextFailurePersists` | gmail_cleaning_asistant.py:85-88 | once one part fails to decode, the whole body fails, whatever parts follow |
| `Normalizer.PlainTextOnlyPlainParts` | gmail_cleaning_asistant.py:85-88 | the body text equals the text of the text/plain parts alone, so parts of any other MIME type contribute nothing |
| `Normalizer.PlainTextSingle` | gmail_cleaning_asistant.py:86-88 | a text/plain part contributes its decoded data, and one without data contributes the decoding of ""; any other part contributes "" |
| `Normalizer.PlainText` | gmail_cleaning_asistant.py:84-88 | the joined text of the parts; with no text/plain part among them it is the empty text, not an error |
| `Normalizer.Truncate` | gmail_cleaning_asistant.py:96 | content of at most 500 characters is unchanged; longer content becomes its first 500 characters followed by "...", 503 characters in all; the result never exceeds 503 |
| `Normalizer.TruncateIdempotent` | gmail_cleaning_asistant.py:96 | truncating an already truncated body changes nothing |
| `Normalizer.BodyText` | gmail_cleaning_asistant.py:82-91 | a single-part payload gives the decoding of its own body data, whatever its MIME type; a multi-part payload with no text/plain part gives the empty text |
| `Normalizer.Normalize` | gmail_cleaning_asistant.py:77-103 | the record fails exactly when the body does not decode; otherwise it carries the listed id, the size estimate unchanged, the subject lookup, and as content the truncated body text (at most 503 characters) |
| `Normalizer.ConcatPlainParts` | gmail_cleaning_asistant.py:82-88 | the `content +=` loop over the parts yields exactly the specified body text, and stops with a failure at the first part that does not decode |
| `Normalizer.NormalizeMessage` | gmail_cleaning_asistant.py:77-96 | the per-message body of the fetch loop (multi-part or single-part body) builds exactly the specified record |
| `Fetch.ListMessageIds` | gmail_cleaning_asistant.py:67-68 | the list request returns at most `maxResults` ids: a prefix of the mailbox's ids, with all of them when there are fewer |
| `Fetch.FetchOne` | gmail_cleaning_asistant.py:76-96 | fetching one id fails with MessageNotFound exactly when the id is missing, and with UndecodableBody exactly when the message exists but its body does not decode; otherwise it gives that message's record |
| `Fetch.Collect` | gmail_cleaning_asistant.py:75-103 | the loop whose first exception ends it: a success holds one value per outcome, and a failure is the error of one of the outcomes |
| `Fetch.FetchAll` | gmail_cleaning_asistant.py:75-103 | a successful batch has one record per listed id, and a failure names one of the listed ids |
| `Fetch.FetchAllOk` | gmail_cleaning_asistant.py:75-103 | a batch succeeds exactly when every listed message can be got and decoded, and it then holds exactly one record per listed id, in listing order |
| `Fetch.FetchAllErr` | gmail_cleaning_asistant.py:75-91 | a failed batch reports the error of the first listed message that failed; every message before it succeeded |
| `Fetch.CollectErrorPersists` | gmail_cleaning_asistant.py:75-91 | once one message of the loop fails, the messages after it do not change the outcome: the batch fails with that error |
| `Fetch.FetchEmails` | gmail_cleaning_asistant.py:65-110 | the fetch loop with its `append` returns exactly the specified batch for the ten most recent ids |
| `Fetch.FetchEmailsBatch` | gmail_cleaning_asistant.py:67-103 | a successful fetch holds at most ten records, min(10, mailbox size) of them; the i-th carries the i-th most recent id, its message's size estimate and a body of at most 503 characters |
| `Classifier.ScanCategory` | gmail_cleaning_asistant.py:123-131 | the scan returns one of CRITICAL, KEEP, DELETE; CRITICAL iff "CRITICAL" occurs; DELETE iff "DELETE" occurs and neither "CRITICAL" nor "KEEP" does; otherwise KEEP |
| `Classifier.ParseResponse` | gmail_cleaning_asistant.py:120-133 | without a separator, the category is the keyword scan and the reason is the whole answer |
| `Classifier.SplitAtFirstSeparator` | gmail_cleaning_asistant.py:120-121 | with a separator, category + " \| " + reason is the answer, and no separator starts inside the category, not even one that runs into the split separator, so the split is at the first one |
| `Classifier.SplitRoundTrip` | gmail_cleaning_asistant.py:120-121 | parsing category + " \| " + reason gives back exactly that category and reason iff the category followed by " \|" holds no separator |
| `Classifier.AnalyzeEmail` | gmail_cleaning_asistant.py:112-140 | id and size are copied from the record unchanged; category and reason are those of the parsed answer |
| `Classifier.FallbackIsFailSafe` | gmail_cleaning_asistant.py:122-133 | without a separator the category is one of the three literals, the reason is the whole answer, and DELETE needs "DELETE" with neither "CRITICAL" nor "KEEP" present |
| `Classifier.SplitCategoryIsUnchecked` | gmail_cleaning_asistant.py:120-121 | an answer "Maybe \| ..." gets category "Maybe", which is not one of the three literals |
| `Classifier.SplitCategoryIsNotTrimmed` | gmail_cleaning_asistant.py:120-121 | answers "DELETE  \| ..." and "\*\*DELETE\*\* \| ..." get the categories "DELETE " and "\*\*DELETE\*\*": white space and decoration are kept, so neither counts as DELETE |
| `Triage.RecommendationsAreDeleteSubsequence` | gmail_cleaning_asistant.py:152-159 | the recommendations are, in order, the results whose category is exactly DELETE: same id, reason and size, at increasing positions, none missing |
| `Triage.DeleteRecommendations` | gmail_cleaning_asistant.py:149-159 | the recommendation list is never longer than the result list |
| `Triage.ReclaimableBytes` | gmail_cleaning_asistant.py:149-159 | `total_saved` never exceeds the total size of the batch |
| `Triage.AggregateAppend` | gmail_cleaning_asistant.py:149-159 | the recommendations and the reclaimable bytes of two result lists put together are those of each, concatenated or added |
| `Triage.OtherCategoriesContributeNothing` | gmail_cleaning_asistant.py:152-154 | results with no DELETE category give no recommendation and zero bytes |
| `Triage.TotalIsSumOfRecommendations` | gmail_cleaning_asistant.py:149-159 | `total_saved` equals the sum of the sizes of the recommendations |
| `Triage.AnalyzeAll` | gmail_cleaning_asistant.py:143-147 | the analysis loop gives one result per fetched email, in order, each the analysis of that email with its answer |
| `Triage.Aggregate` | gmail_cleaning_asistant.py:149-159 | the aggregation loop's total and list are the reclaimable bytes and the recommendations of the results |
| `Triage.RequestTrash` | gmail_cleaning_asistant.py:168-171 | nothing is trashed without confirmation; with it, one trash request per recommendation, in order |
| `Triage.ProcessEmails` | gmail_cleaning_asistant.py:142-171 | `process_emails` analyses every email in order, totals and lists the DELETE results, and trashes their ids only when confirmed |
| `Triage.OnlyDeleteTaggedAreTrashed` | gmail_cleaning_asistant.py:146-171 | something is trashed only if the user confirmed, and every trashed id is that of a fetched email whose answer parsed to exactly DELETE |
| `Triage.ThreeEmailScenario` | gmail_cleaning_asistant.py:112-159 | emails of 1000, 2000 and 3000 bytes answered "DELETE \| r1", "KEEP \| r2", "CRITICAL \| r3" give the single recommendation (id1, r1, 1000) and 1000 reclaimable bytes |

## Left out

- Authorisation: the OAuth flow and the `token.pickle` cache (lines 47-63) are file and network I/O.
- The prompt and the Gemini call (lines 24-45): a foreign model call. Its text answer is an input to the parser.
- The Gmail list, get and trash calls (lines 67, 76, 171) are network I/O. The mailbox is a value. Trashing
  is modelled as the ordered list of ids the loop asks to trash. Failures of the list or trash calls are not modelled.
- Base64url and UTF-8 decoding (lines 88, 91) is a library call. It is the `decode` parameter, with no properties assumed.
- Missing keys other than `parts` and `data` (`payload`, `headers`, `mimeType`, `body`, `sizeEstimate`,
  `name`, `value`) would raise `KeyError` in the source. The model's datatypes always carry them, as the Gmail API's message format does.
- Normalizer.Lower: lower-cases ASCII letters only, where Python's `str.lower` covers all of Unicode. For the
  comparison with "subject" this gives the same answer: no non-ASCII character lower-cases to one of that word's letters.
- Streamlit output (warnings, spinners, progress bars, the confirmation button, the temporary credentials file;
  lines 72, 105-108, 161-172, 174-206) is UI. The button's state is the `confirmed` parameter.
- The MB and KB figures (lines 162, 166, 172) are float division used only for display.
- Rerun on confirmation: clicking "Proceed with Deletion" makes Streamlit run the whole script again, so the
  fetch and the model calls happen again and the ids trashed come from that rerun's analysis, which need not
  match the list the user saw. The `confirmed` parameter of Triage.ProcessEmails models a single run only.
- Triage.AnalyzeAll and Triage.ProcessEmails take the model's answers as a sequence as long as the batch. This
  stands for one call per email. The source places no such requirement: it is how the oracle is represented.
- `Gmail_assistant_UI.tsx` is a React mock-up with hard-coded data and float sizes. It is not part of this model.
