# Zakat donation backend: classifier and append-only logs

This project models the core of the donation backend in `backend/server.js`. The core has two parts.

- **The keyword classifier** (`classifyCategory`). It maps a donation's free-text note to one of six category labels: "Food", "Education", "Medical", "Orphans / Widows", "Ramzan / Fitra" or "General". A missing or empty note is "General". Otherwise the note is lower-cased and searched for 17 keywords, in five groups tried in a fixed order. The first group with a keyword that occurs anywhere in the note decides the label. If no keyword occurs, the label is "General".
- **The two append-only logs.** `saveDonation` reads the donations list, pushes one record and writes the list back. `appendBlockchainRecord` does the same for the simulated blockchain log with the record `{txId, metadataHash, network: "Simulated chain", createdAt}`. Each JSON file becomes an object owning a sequence (`Logs.DonationStore`, `Logs.BlockchainLog`). Each method reassigns that sequence.

Files:

- `wrappers.dfy`: module `Wrappers`, the `Option` type used for a note that may be null.
- `classifier.dfy`: module `Classifier`. It holds ASCII lower-casing (`Lower`) and substring search (`Includes`, proved equal to "occurs at some position"). It holds the classifier written as the source's if-chain (`ClassifyCategory`). It also holds an independent reference definition: a rule table `Rules` tried in order by `FirstMatch`. The lemmas prove the two agree and derive the priority, fallback and case-insensitivity properties.
- `logs.dfy`: module `Logs`. It holds the record types, the pure specification `Appended` of one push, and the two store classes.

The note is `Option<string>`. `None` stands for JavaScript's `null`/`undefined` (and any other falsy value), and `!noteRaw` treats these like the empty string. The clock values (`Date.now()`, `new Date().toISOString()`) are parameters: `txId` and `createdAt` of `AppendBlockchainRecord`. The hash string passed to it is an opaque parameter as well.

The model follows `backend/server.js` as written. The blockchain log record there has no block index, no previous-block hash and no block hash. The file also contains no chain validation and no Merkle-root computation. So the model has none of them.

## Model

| member | source | states |
|---|---|---|
| Classifier.LowerChar | backend/server.js:57 | The result is never an upper-case ASCII letter. An upper-case letter becomes its lower-case letter. Every other character is unchanged. |
| Classifier.Lower | backend/server.js:57 | Lower-casing keeps the length and lowers each character independently. |
| Classifier.LowerIdempotent | backend/server.js:57 | Lower-casing a lower-cased note changes nothing. |
| Classifier.Includes | backend/server.js:59-72 | Models `String.prototype.includes` by scanning start positions left to right. Its own `ensures` covers only the prefix case: a keyword at the start of the note is found. The full characterisation is `IncludesIffOccurs`. |
| Classifier.IncludesIffOccurs | backend/server.js:59-72 | The left-to-right substring scan used for `includes` succeeds exactly when the keyword occurs at some position of the note. |
| Classifier.IncludesInside | backend/server.js:59-72 | A keyword embedded anywhere in a longer text is found. Matching is by substring, not by whole word. |
| Classifier.ClassifyCategory | backend/server.js:54-75 | The result is always one of the six labels. A missing or empty note yields "General". |
| Classifier.FirstMatchSpec | backend/server.js:59-74 | Trying rules in order returns the label of the earliest matching rule. If no rule matches, it returns "General". |
| Classifier.RulesMatchKeywordTests | backend/server.js:59-72 | Each of the five rows of the rule table matches exactly when the corresponding chain of `includes` tests joined by `or` in the source holds. |
| Classifier.CategoriesDistinct | backend/server.js:59-74 | The five rule labels differ from each other and from "General". |
| Classifier.ClassifyIsFirstMatch | backend/server.js:54-75 | The classifier equals the rule table tried in order on the lower-cased note. This covers the empty note too. |
| Classifier.ClassifyCaseInsensitive | backend/server.js:57 | Classifying the lower-cased note gives the same label as classifying the note. |
| Classifier.ClassifyPicksFirstMatchingRule | backend/server.js:59-72 | A rule's label is returned if and only if that rule matches the lower-cased note and no earlier rule does. |
| Classifier.ClassifyPriority | backend/server.js:59-72 | If rule k matches, no later rule's label is returned. |
| Classifier.FirstMatchPicks | backend/server.js:59-72 | When the rule labels are distinct and none is "General", trying rules in order yields rule k's label if and only if rule k is the first rule that matches. |
| Classifier.FirstMatchGeneralIff | backend/server.js:59-74 | When no rule is labelled "General", trying rules in order yields "General" if and only if no keyword occurs. |
| Classifier.ClassifyGeneralIff | backend/server.js:74 | The classifier yields "General" if and only if none of the 17 keywords occurs in the lower-cased note. |
| Classifier.KeywordAnywhereMatches | backend/server.js:57-72 | A keyword of rule k, in any ASCII case and anywhere in the note, makes rule k match. |
| Classifier.KeywordsAreLowercase | backend/server.js:59-72 | Every one of the 17 keywords is already lower case, so it equals its own lowering. |
| Classifier.KeywordMatches | backend/server.js:57-72 | A keyword of rule k, written exactly as listed, anywhere in the note makes rule k match the lowered note. |
| Classifier.FoodKeywordWins | backend/server.js:59-60 | A note containing "food", "ration" or "grocery" in any case and anywhere yields "Food", whatever other keywords it contains. Examples are "seafood" and "generation". |
| Logs.Appended | backend/server.js:82-91 | One push gives a log one longer, with the old log as its prefix. The new last record carries the given hash, `txId` and `createdAt`, and the network "Simulated chain". |
| Logs.AppendedKeepsSimulated | backend/server.js:87 | If every record names the simulated network, that still holds after a push. |
| Logs.BlockchainLog.constructor | backend/server.js:24-26 | A freshly initialised blockchain log is the empty array, so every record in it trivially names "Simulated chain". |
| Logs.BlockchainLog.ReadBlockchainLog | backend/server.js:78-80 | Reading returns the stored log unchanged. |
| Logs.BlockchainLog.AppendBlockchainRecord | backend/server.js:82-91 | The new log is `Appended` of the old one, so it grows by exactly one, the earlier records are unchanged, and the last record has the given hash and "Simulated chain". If every old record named "Simulated chain", every new one does too. |
| Logs.DonationStore.constructor | backend/server.js:21-23 | A freshly initialised donations list is the empty array. |
| Logs.DonationStore.ReadDonations | backend/server.js:43-45 | Reading returns the stored list unchanged. |
| Logs.DonationStore.SaveDonation | backend/server.js:47-51 | The new list is the old list followed by the donation: one longer, the old prefix kept, and the donation last. |

## Left out

- HTTP routing, CORS, dotenv setup, `app.listen` and the route handlers (`/`, `/donate`, `/donations`, `/blockchain-log`): web plumbing around the core.
- File-system persistence (`ensureStorage`, `readJson`, `writeJson`): each file is an in-memory sequence owned by an object. The constructors stand for the `"[]"` that `ensureStorage` writes.
- A corrupt data file: when a file does not parse as JSON, `readJson` returns `[]` (backend/server.js:34-35). The next `saveDonation` or `appendBlockchainRecord` then writes a one-element array over the whole history. The model holds the list in memory and cannot be corrupted, so its promise that earlier records stay unchanged holds only while the file stays valid JSON.
- A data file holding JSON that is not an array: `push` then throws (backend/server.js:49, 84), and the `/donate` handler answers with a server error. The model's sequence is always a list, so this failure is not represented.
- A log file edited outside the server: `Logs.BlockchainLog.AllOnSimulatedNetwork` holds only for logs built from the empty array by `AppendBlockchainRecord`.
- SHA-256 (CryptoJS) for `anonymousId` and `metadataHash`: a foreign library. Hashes are opaque strings passed in.
- `Date.now()` and `new Date().toISOString()`: clock reads. They are parameters of `AppendBlockchainRecord` and fields of the records passed to `SaveDonation`.
- The amount check (`parseFloat`, `numAmount <= 0`) and the floating-point amount: `Receipt.amount` is a `real`, and nothing is proved about it.
- `JSON.stringify` of the receipt: library serialisation.
- Classifier.Lower: lower-cases ASCII `A`-`Z` only. JavaScript's `toLowerCase` applies full Unicode case mapping, which is not modelled.
- Notes that are not strings: a falsy value (`undefined`, `null`, `0`, `NaN`, `false`) returns "General" at backend/server.js:55 and never reaches `toLowerCase`; the model covers this case through `None`. A truthy value that is not a string (a non-zero number, `true`, an array, an object) makes `toLowerCase` throw at backend/server.js:57, and that failure is not modelled. The only caller passes `note || ""` (backend/server.js:110), so a missing note arrives as the empty string.
- Strings as UTF-16: a JavaScript string is a sequence of UTF-16 code units, while a Dafny `string` is a sequence of Unicode scalar values. A note holding a lone surrogate (as a JSON escape `"\ud800"` can produce) has no counterpart in the model. Neither this gap nor ASCII-only lower-casing changes a label: all 17 keywords are ASCII, and the only non-ASCII characters that `toLowerCase` maps to ASCII are U+0130 (to "i" followed by a combining dot) and U+212A (to "k"). No keyword contains "k" or ends in "i", so neither can complete a keyword. This argument is not proved in the model.
- Concurrent requests: Node runs each handler to completion, so a read-push-write step is modelled as one atomic method.
