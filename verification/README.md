# fixit-bot-server: the chat server's decision logic in Dafny

The fixit-bot server takes a user's chat message and sends it to a generative
model. It classifies the message by device and by issue, looks up a canned
solution for that pair in a small knowledge base, and replies with the model's
text followed by the solution. This project models the pure parts of that
server (`index.cjs`) and proves properties about them:

- **Keyword classifiers** (`extractDeviceFromMessage`, `extractIssueFromMessage`).
  Each lowers the message and scans a fixed vocabulary in declaration order.
  It returns the first keyword that occurs, capitalised, or `"Unknown"`.
  The model is module `Classifier`, built on substring search and ASCII case
  mapping in module `Strings`.
- **Knowledge-base lookup** (`getSolution`). A first-match linear scan over
  `(Device, Issue, Solution)` rows using exact equality. When nothing matches
  it returns `"Solution not found."`. This is module `KnowledgeBase`. The
  table is passed in as a `seq<Row>` instead of being a global array.
- **CORS origin callback**. A request with no origin is allowed. Any other
  non-empty origin is allowed only if it is on the two-entry allow-list.
  This is module `Cors`.
- **Chat handler** (`POST /api/chat`). It composes
  `text + "\n\nAdditional Info: " + solution` on success and returns a fixed
  500 error otherwise. This is module `Chat`. The model call is an input
  `Option<string>`: `None` means some step of the call threw.

Module `Wrappers` holds the `Option` datatype.

Behaviour of the code worth knowing:

- When a message contains several device keywords, the result is the
  keyword listed earliest: "laptop", then "phone", then "mifi". The same
  rule applies to issues.
- The origin test in the source is `!origin`, and the empty string is falsy.
  So a present but empty `Origin` value is allowed, just like a missing one.
- Matching is by substring, so "smartphone" and "headphones" both classify
  as `Phone`.
- A table row whose solution is literally `Solution not found.` cannot be
  told apart from a miss.
- If the body's `message` is not a string, `toLowerCase` throws inside the
  same `try` block. That request therefore ends on the 500 path as well. In
  the model this is `message == None`.

## Model

| member | source | states |
|---|---|---|
| `Strings.ToLower` | index.cjs:50 | Lowering keeps the length and lowers each character in place. The result has no upper-case letter left. |
| `Strings.ToLowerIdempotent` | index.cjs:64 | Lowering an already lowered message changes nothing. |
| `Strings.ToLowerSameIgnoringCase` | index.cjs:50 | Two messages lower to the same string exactly when they differ only in letter case, in both directions. |
| `Strings.Capitalize` | index.cjs:55 | `charAt(0).toUpperCase() + slice(1)` differs from the keyword only in letter case. Every character after the first is unchanged, and the first is not left lower-case. |
| `Strings.CapitalizeRoundTrip` | index.cjs:76 | Capitalising keeps the length. Lowering the result gives back the lower-case keyword. |
| `Strings.Contains` | index.cjs:54 | The `includes` scan succeeds exactly when the keyword occurs at some offset of the text, in both directions. The empty pattern is found in every text. |
| `Classifier.FirstMatch` | index.cjs:53-59 | The loop returns the lowest index whose keyword occurs in the text. If none occurs it reports that no keyword of the vocabulary occurs. |
| `Classifier.Classify` | index.cjs:74-80 | The shared loop answers the capitalised first keyword that occurs in the lowered message, and `Unknown` when none occurs. |
| `Classifier.ExtractDevice` | index.cjs:49-60 | The device result is always one of `Laptop`, `Phone`, `Mifi` or `Unknown`. |
| `Classifier.ExtractIssue` | index.cjs:63-81 | The issue result is always one of the six capitalised issue phrases or `Unknown`. |
| `Classifier.DeviceLabelsCapitalized` | index.cjs:51-55 | Each device keyword capitalises to its label, such as `laptop` to `Laptop`. |
| `Classifier.IssueLabelsCapitalized` | index.cjs:65-76 | Each issue phrase capitalises to its label, such as `no signal` to `No signal`. |
| `Classifier.DeviceLabelsDistinct` | index.cjs:51 | The device labels are pairwise distinct and none is `Unknown`. |
| `Classifier.IssueLabelsDistinct` | index.cjs:65-72 | The issue labels are pairwise distinct and none is `Unknown`. |
| `Classifier.ClassifyLabels` | index.cjs:64-80 | For a vocabulary with distinct labels, the result is label k exactly when keyword k is the first that occurs. It is `Unknown` exactly when no keyword occurs. |
| `Classifier.ExtractDeviceFirstMatch` | index.cjs:49-60 | `Laptop` exactly when "laptop" occurs at some offset of the lowered message. `Phone` exactly when "phone" occurs without "laptop". `Mifi` exactly when only "mifi" occurs. `Unknown` exactly when none of the three occurs. |
| `Classifier.ExtractIssueFirstMatch` | index.cjs:63-81 | The issue result is the label of the first listed phrase that occurs in the lowered message. It is `Unknown` exactly when none of the six occurs. |
| `Classifier.ClassifiersIgnoreCase` | index.cjs:50-54 | Messages that differ only in letter case get the same device and the same issue. |
| `Classifier.ClassifiersIgnoreLowering` | index.cjs:64-75 | A message and its lower-cased form classify identically, for device and for issue. |
| `Classifier.SlowLaptopMessage` | index.cjs:49-81 | Any message containing "laptop" and "slow performance", in any case, classifies as (`Laptop`, `Slow performance`). |
| `KnowledgeBase.Find` | index.cjs:44 | `find` returns the lowest-index row whose Device and Issue both equal the key. It reports a miss only when no row matches. |
| `KnowledgeBase.GetSolution` | index.cjs:43-46 | The lookup returns the Solution of the first matching row, or `Solution not found.` when no row matches. |
| `KnowledgeBase.LookupCases` | index.cjs:45 | Every key has either a first matching row or no matching row, so one of the two answers always applies. |
| `KnowledgeBase.OnlyFirstMatchMatters` | index.cjs:44-45 | Two tables that share the first matching row and have no earlier match give the same answer, whatever their other rows are. |
| `KnowledgeBase.GetSolutionAppend` | index.cjs:44-45 | For two tables joined end to end, the first table answers if it has a match; otherwise the second one does. |
| `KnowledgeBase.ExampleLookup` | index.cjs:43-46 | A table whose first row is (`Laptop`, `Slow performance`, `Restart and update drivers`) answers that solution for that key, whatever rows follow. |
| `Cors.OriginCallback` | index.cjs:16-26 | A missing or empty origin is allowed. A present non-empty origin is allowed exactly when it is `http://localhost:5173` or `https://fixit-bot.vercel.app`. Every refusal carries `Not allowed by CORS`. |
| `Chat.ComposeReply` | index.cjs:99 | The reply starts with the model's text, the separator `\n\nAdditional Info: ` follows, and the solution fills the rest. |
| `Chat.ComposeRoundTrip` | index.cjs:99 | The solution can be read back from a composed reply. A reply that reads back as a solution is exactly text, separator and that solution. |
| `Chat.HandleChat` | index.cjs:83-103 | Status is 200 exactly when the model answered and the message is a string, and the reply then starts with the model's text. Otherwise the response is 500 with `Failed to process the AI response`, whatever the table holds. |
| `Chat.HandleChatSpec` | index.cjs:93-99 | On the success path the reply reads back as the solution looked up for the extracted device and issue. |
| `Chat.ReplySolutionFromTable` | index.cjs:93-99 | The solution in a successful reply is either the sentinel or the Solution of some table row. That row's key is a device label and an issue label the classifiers can produce. |
| `Chat.ExampleChat` | index.cjs:83-99 | With the example row first, a message about a slow laptop gets the model's text, the separator, then `Restart and update drivers`. |

## Left out

- Express setup, JSON body parsing, `app.listen`, the port and console
  logging (index.cjs:1-13, 101, 106-108): this is framework plumbing with
  no decision in it.
- Loading `knowledge_base.csv` with `fs.createReadStream` and `csv-parser`
  (index.cjs:32-40): this is asynchronous file I/O through a library. The
  table is a `seq<Row>` parameter instead. The race between loading the file
  and the first requests is not modelled.
- The generative-model call (index.cjs:87-90): this is a foreign network API.
  It becomes the `Option<string>` parameter of `Chat.HandleChat`, which
  covers only a call that returns text and a call that throws.
- Chat.HandleChat: always answers. The source sets no time-out on the model
  call, so a call that never settles leaves the request hanging with no
  response at all, and the model does not represent that case.
- The CORS middleware's handling of the callback's error and its response
  headers: only the allow/reject verdict is modelled.
- Strings.ToLower: only ASCII letters are mapped, and the length is kept.
  JavaScript's Unicode `toLowerCase` also maps non-ASCII letters and can
  change the length. For example, `İ` (U+0130) lowers to `i` followed by
  U+0307, so `"MIFİ".toLowerCase()` is `"mifi\u0307"`. That contains
  "mifi", so the source answers `Mifi`, while the model answers `Unknown`.
