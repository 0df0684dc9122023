# logmailer in Dafny

A verified model of `logmailer`. The library collects log and error entries
into named *chapters* while an application runs. It then sends one HTML email
per configured *recipient*, and the recipient's rules decide whether it is
emailed at all and which chapters it sees.

The model follows `index.js` part by part:

- `chapters.dfy`: module `Chapters`. `Chapter` is a class whose `Add` and
  `Reset` methods update `html` and `count` in place. They are specified by
  functions on a snapshot value `ChapterView` (`Initial`, `Added`, `Cleared`),
  and the lemmas are about those functions.
- `compose.dfy`: module `Compose`. A recipient is either `Plain(address)` or
  `Rich(address, gate, visible)`. The gate and visible lists hold the chapter
  objects themselves, so they alias the configured chapters. The functions
  `AnyNonEmpty`, `Visible`, `Segments`, `Body` and `ComposeFor` specify each
  recipient's entry. The methods `GateOpen`, `ComposeSections`, `ComposeOne`
  and `ComposeMessages` are the source's loops, each proved equal to its
  specification.
- `dispatch.dfy`: module `Dispatch`. The recursive `_mailSender` becomes the
  `SendQueue` loop. It takes entries from the front of the queue and calls the
  transport only for entries whose `sendEmail` is true. It records each
  rejection in an address-to-error map. The transport is an oracle of type
  `Message -> Delivery`.
- `html_table.dfy`: module `HtmlTable`. `convertObjectToHTMLTable` and
  `convertObjectArrayToHTMLTable` work on a typed tree
  `Value = Prim(text) | Obj(fields)`. Each is a method with the source's loop,
  proved equal to the recursive function `Table` or `Tables`.
- `mailer.dfy`: module `Mailing`. The `Mailer` class holds the configuration,
  `Create` overwrites it, and `SendMail` composes every entry and then
  delivers them.
- `decimal.dfy` renders a count as decimal text, the way a template literal
  prints it. `wrappers.dfy` holds `Option`.

All composition is done before any delivery starts, and nothing changes a
chapter during `sendMail`. So the model reads every chapter once, at the start
of the call (`Compose.Snapshots`, `Compose.Views`), and composes from those
snapshots.

## Model

| member | source | states |
|---|---|---|
| Chapters.Chapter.constructor | index.js:249-260 | A new chapter has empty `html`. It has a `count`, equal to 0, exactly when `hasCount` is true. Its colour is the given one when that is truthy, else "black". |
| Chapters.ColorOrDefault | index.js:256-260 | A chapter's colour is the given one when it is truthy, and "black" otherwise. |
| Chapters.Initial | index.js:249-260 | The state of a new chapter: empty markup, a counter that exists iff `hasCount` and starts at 0, and the colour `ColorOrDefault(color)`: the given colour when it is truthy, otherwise "black". |
| Chapters.Chapter.Add | index.js:267-272 | `add` keeps the invariant that `count` exists iff it was requested, and the new state is `Added(old state, headline, content)`. |
| Chapters.Fragment | index.js:268 | Definition: the markup one `add` appends, `<h4>` with the coloured headline when it is truthy, `<br/>` otherwise, then the content in a `<span>`. Properties in `AddedSpec`. |
| Chapters.Added | index.js:267-272 | Definition: the chapter state after one `add`. Properties in `AddedSpec` and `AddedAllSpec`. |
| Chapters.AddedSpec | index.js:267-272 | One `add` keeps the old `html` as a prefix. It appends `<h4>…headline…</h4><span>content</span>` for a truthy headline and `<br/><span>content</span>` otherwise. `count` rises by exactly 1 iff the chapter counts and the headline is truthy, and is otherwise unchanged. |
| Chapters.AddedAllSpec | index.js:267-272 | After any sequence of adds, the counter grows by the number of headed calls. A chapter without a counter never gains one, and the earlier markup stays a prefix. |
| Chapters.CountAfterAdds | test.js:5-7 | A fresh counting chapter given N headed and M headless adds has `count == N`. A fresh non-counting chapter still has no count. |
| Chapters.Headed | index.js:269-271 | Definition: the number of `add` calls with a truthy headline, the calls that bump the counter. Properties in `HeadedAppend` and `AddedAllSpec`. |
| Chapters.HeadedAppend | index.js:269-271 | Two batches of `add` calls bump the counter by the sum of their headed calls. |
| Chapters.Chapter.Reset | index.js:277-282 | `reset` keeps the counter invariant, and the new state is `Cleared(old state)`. |
| Chapters.Cleared | index.js:277-282 | Definition: the chapter state after `reset`. Properties in `ClearedSpec`. |
| Chapters.ClearedSpec | index.js:277-282 | A reset empties `html` and zeroes an existing counter. It never creates a counter, and a second reset changes nothing. |
| Compose.AnyNonEmptyIff | index.js:78-86 | The gating scan returns true exactly when some chapter of the gating list has non-empty `html`. |
| Compose.AnyNonEmpty | index.js:78-86 | Definition: the in-order scan of a gating list for a chapter with non-empty `html`. Properties in `AnyNonEmptyIff` and `GateOpen`. |
| Compose.SendEmail | index.js:78-86 | Definition: the `sendEmail` flag, true with no gating list and otherwise the gating scan. Properties in `SendEmailIff`. |
| Compose.SendEmailIff | index.js:78-86 | A recipient is emailed iff it has no gating list or one of its gating chapters is non-empty. An empty gating list therefore never sends. |
| Compose.GateOpen | index.js:79-83 | The gating loop's flag equals the gating scan over the whole list. |
| Compose.ComposeForShape | index.js:65-76 | An entry's address is the recipient's address, and its subject starts with `appName`. |
| Compose.Visible | index.js:88-94 | Definition: the chapters a recipient sees, its visibility list when it has one and all configured chapters otherwise. Properties in `RestrictedIgnoresOtherChapters`. |
| Compose.RestrictedIgnoresOtherChapters | index.js:88-94 | For a recipient with a visibility list, the entry does not depend on the configured chapters. A chapter outside its list can never reach its body or subject. |
| Compose.EmptyChapterContributesNothing | index.js:96-97 | Dropping a visible chapter whose `html` is empty changes neither the subject nor the body. |
| Compose.ZeroCountQuirk | index.js:98-106 | A non-empty counting chapter with count 0 adds no subject segment and no `<h2>` heading, but its `html` is still appended. |
| Compose.UncountedAddNoSegment | index.js:98-105 | Chapters without a counter add no subject segment. |
| Compose.SegmentCount | index.js:96-102 | If no `|` appears in the app name, the time stamp or a chapter name, the subject has exactly one `|` per visible, non-empty chapter with a positive count. That is one segment per such chapter. |
| Compose.WithSegment | index.js:97-99 | The chapters that add a segment are exactly the listed chapters that are non-empty and counted with a count above 0. |
| Compose.SegmentsAppend | index.js:96-108 | Subject segments follow the visible list in order: the segments of a concatenated list are the segments of each part, concatenated. |
| Compose.BodyAppend | index.js:96-108 | Body sections follow the visible list in order: the body of a concatenated list is the body of each part, concatenated. |
| Compose.Segments | index.js:96-102 | Definition: the subject segments ` \| [name]: count Time: stamp`, one per visible, non-empty chapter whose counter is above 0, in list order. Properties in `SegmentCount`, `SegmentsAppend` and `ZeroCountQuirk`. |
| Compose.Heading | index.js:97-106 | Definition: the `<h2>` heading of a non-empty chapter. It shows `name: count` for a counting chapter with count above 0, is empty for a counting chapter with count 0, and shows the name alone for a chapter without a counter. Properties in `ZeroCountQuirk`. |
| Compose.Section | index.js:97-107 | Definition: a chapter's body section, its heading then its markup, or nothing when the markup is empty. Properties in `EmptyChapterContributesNothing` and `BodyAppend`. |
| Compose.Body | index.js:96-108 | Definition: the sections of the visible chapters, in list order. Properties in `BodyAppend` and `EmptyChapterContributesNothing`. |
| Compose.ComposeFor | index.js:63-109 | Definition: one recipient's entry, with its resolved address, gate flag, subject and body. Properties in `ComposeForShape`, `SendEmailIff` and `RestrictedIgnoresOtherChapters`. |
| Compose.ComposeSections | index.js:96-108 | The chapter loop's subject is `appName` followed by the segments of the visible chapters, and its body is their sections. |
| Compose.ComposeOne | index.js:63-109 | One recipient's entry is exactly `ComposeFor`: its address, gate, visible chapters, subject and body. |
| Compose.ComposeAll | index.js:61-110 | The `recipientHTMLs` array: one entry per recipient, in recipient order, entry i equal to `ComposeFor` of recipient i. |
| Compose.ComposeMessages | index.js:61-110 | The composition loop produces one entry per recipient, in recipient order, each equal to `ComposeFor`. |
| Compose.Views | index.js:96 | The snapshot list has one view per chapter object, holding that chapter's current fields. |
| Compose.Snapshot | index.js:72-94 | Definition: a recipient as `sendMail` reads it. A plain string is its own address with no gating or visibility list. A `Recipient` object gives its `emailAddress` and the current state of its gating and visible chapters. Properties in `ComposeForShape` and `Snapshots`. |
| Compose.Snapshots | index.js:63 | The snapshot list has one view per recipient, in recipient order. |
| Dispatch.MessageFor | index.js:138-144 | The message goes to the entry's address, from the mail alias, with the entry's subject. |
| Dispatch.CallbackArgument | index.js:175-179 | The callback receives the error map iff the map is non-empty, and no argument otherwise. |
| Dispatch.Attempts | index.js:124-143 | Definition: the messages handed to the transport, one per entry with `sendEmail` true, in queue order. Properties in `AttemptsExactlySent` and `AttemptsAppend`. |
| Dispatch.MailSender | index.js:120-181 | Definition: the final error map. Each rejected entry's error is stored under its address, and a later rejection for the same address overwrites the earlier one. Properties in `FailedKeys`, `ErrorsComeFromFailures` and `ErrorKeysAreFailures`. |
| Dispatch.SendQueue | index.js:120-181 | The delivery loop hands the transport exactly `Attempts(queue)`, in order. It ends with the error map of `MailSender`. |
| Dispatch.AttemptsExactlySent | index.js:127-173 | The messages given to the transport are exactly those of the entries with `sendEmail` true. Skipped entries never reach it. |
| Dispatch.AttemptsAppend | index.js:124-173 | Delivery keeps queue order: the attempts for a concatenated queue are the attempts for each part, in order. |
| Dispatch.FailedKeys | index.js:160-167 | An address is a key of the final map iff it was already recorded or a queued entry for it was sent and rejected. |
| Dispatch.ErrorsComeFromFailures | index.js:164 | Every recorded error is the transport's error for a rejected entry with that address, or an error that was already recorded. |
| Dispatch.ErrorKeysAreFailures | index.js:120-181 | Starting from no errors, the keys of the final map are exactly the addresses whose delivery was rejected. |
| Dispatch.CallbackEmptyIffAllDelivered | index.js:174-179 | The callback gets no argument iff every message given to the transport was delivered. |
| HtmlTable.Table | index.js:201-224 | Definition: the rendering of one record. Properties in `TableOfLeaves`, `TableOfObject` and `TableRowTags`. |
| HtmlTable.Rows | index.js:207-216 | Definition: the first n rows of an object's table, each row the key cell then the rendered value cell. Properties in `TableOfObject` and `RowsRowTags`. |
| HtmlTable.Tables | index.js:187-195 | Definition: the renderings of an array's records, one after another. Properties in `TablesAppend` and `TablesPair`. |
| HtmlTable.TableOfLeaves | index.js:203-223 | A primitive renders as its own text, and an object with no keys renders as "". |
| HtmlTable.TableOfObject | index.js:205-217 | A non-empty object renders as one table. It starts with the table-opening tag and ends with `</table>`. The row for key k sits right after the opening tag and the rows of keys 0..k-1, so the rows appear once each, in key order. |
| HtmlTable.RowsPrefix | index.js:208-215 | The loop only appends: the first j rows are a prefix of the first n rows whenever j <= n. |
| HtmlTable.TableRowTags | index.js:207-216 | If no key or primitive contains `<`, the rendering holds exactly one `<tr` per key of the record, nested keys included. |
| HtmlTable.RowsRowTags | index.js:208-215 | If no key or primitive contains `<`, the first n rows of an object hold exactly one `<tr` per key among them and below them. |
| HtmlTable.FlatObjectRows | index.js:208-215 | If no key or primitive contains `<`, an object whose values are all primitives renders with exactly one `<tr` per key. |
| HtmlTable.FixedPieces | index.js:207-216 | Of the fixed tags, only the row-opening tag contains `<tr`. |
| HtmlTable.TablesAppend | index.js:187-195 | The array rendering of two consecutive parts is the two renderings concatenated. |
| HtmlTable.TablesPair | index.js:187-195 | `[o1, o2]` renders as the table for `o1` followed by the table for `o2`. |
| HtmlTable.ConvertObjectToHTMLTable | index.js:201-224 | The row-by-row loop with recursion into nested objects computes `Table(obj)`. |
| HtmlTable.ConvertObjectArrayToHTMLTable | index.js:187-195 | The loop over the array computes `Tables(records)`, the renderings one after another. |
| Decimal.DecimalString | index.js:100-101 | A count prints as a non-empty digit string with no leading zero. |
| Decimal.ParseDecimalString | index.js:100-101 | Reading the printed count back gives the count. |
| Decimal.DecimalStringInjective | index.js:100-101 | Different counts print differently, so a subject or heading shows which count it had. |
| Mailing.Mailer.constructor | index.js:10-18 | A new mailer has app name `App-<pid>`, mail alias `logmailer-<pid>`, no recipients and no chapters. |
| Mailing.Mailer.Create | index.js:35-53 | `create` overwrites the app name, mail alias, recipients and chapter mapping. |
| Mailing.Mailer.Queue | index.js:61-110 | Definition: the `recipientHTMLs` array composed from the mailer's configuration and the chapters' current state. Properties in `SendMail`, `GatedOnEmptyIsSkipped` and `SecondOfThreeFails`. |
| Mailing.Mailer.SendMail | index.js:59-115 | `sendMail` hands the transport exactly the attempts of the composed queue. The callback receives what `MailSender` yields for that queue. Both are determined by the chapters as they were when the call started. |
| Mailing.ChapterObjects | index.js:93-96 | The chapter mapping's values, one per key, in `Object.keys` order. That is integer-like keys first in ascending order, then the other keys in insertion order. |
| Mailing.GatedOnEmptyIsSkipped | test-config.js:22-23 | A recipient gated on chapters that are all empty gets no message, when no other recipient shares its address. |
| Mailing.SecondOfThreeFails | index.js:160-167 | Three sent entries with distinct addresses, where only the second is rejected, end with an error map whose only key is the second address. |

## Left out

- Console output (`console.log`, `console.error`) is left out. It changes no result, except that reading `error.message` at index.js:162 can throw, which the next line covers.
- Dispatch.SendQueue, Dispatch.MailSender, Mailing.Mailer.SendMail: a transport that rejects with `undefined` or `null` is not modelled. Then `error.message` at index.js:162 throws inside the `.catch` handler, before line 164 records the error. Lines 166-167 never run, so the rest of the queue is never sent, the callback never runs, and the promise returned by `.catch` rejects unhandled. The model's `Rejected(error)` always carries a string, so every rejection is recorded and dispatch goes on.
- The clock: `new Date().toLocaleString()` is the parameter `stamp`. The source reads the clock once per subject segment, but the model uses one stamp for the whole call.
- The mail transport and its Promise: `mailClient.send` is an oracle function from message to `Delivered` or `Rejected(error)`, and asynchrony is not modelled. A real transport may settle the same message differently on two calls; the oracle cannot.
- The transport handle is passed to `SendMail` instead of being stored by `Create`.
- Mailing.Mailer.constructor: the singleton logic (`Mailer.instance`) is left out, because the model has no module-level state. `process.pid` becomes the parameter `pid`, and the `mailClient = null` default is not stored, because the transport is passed to `SendMail`.
- The commented-out SMTP/emailjs code is dead code and is not modelled.
- JavaScript typing edge cases are not modelled: `toString` on `undefined`, `typeof null === 'object'`, `hasOwnProperty` probing of arbitrary objects, and non-array arguments. `convertObjectArrayToHTMLTable` returns `undefined` for a non-array; the model only accepts sequences.
- A `Recipient` object whose `emailAddress` is `undefined` is not modelled: addresses are strings.
- A headline, colour, gating list or visibility list that is present but not a string or array is not modelled. Truthiness is modelled only for strings: present and non-empty. For example, a `canOnlySeeChapters` given as an object mapping shaped like `options.chapters` fails the `Array.isArray` test at index.js:90, so that recipient sees every configured chapter. The model's `visible` is either absent or a sequence.
- The error value is whatever the transport rejects with; the model keeps it as a string.
- Mutation of a chapter while `sendMail` is composing is not modelled. The source composes synchronously, so no such mutation can happen.
- Dispatch.SendQueue, Dispatch.MailSender, Dispatch.CallbackArgument: exceptions inside the promise chain are not modelled. The `.catch` at index.js:160-167 comes after `.then`, so it also catches what the `.then` handler throws. If the final callback throws, the error is recorded under the address just delivered and the callback runs a second time with the accumulated map, which now also maps the address just delivered to the thrown error. If `send` throws synchronously for the next entry, the error is recorded under the previous entry's address, and the failing entry is then dropped without being sent. The model assumes the transport and callback never throw, so the callback runs exactly once.
- Chapters.AddedSpec, Chapters.AddedAllSpec: `count` is a JavaScript Number, and `count++` at index.js:270 stops changing once it reaches 2^53. The model's counter is unbounded, so "+1" holds for every count. In practice 2^53 is never reached.
- Dispatch.SendQueue, Mailing.Mailer.SendMail: a `send` whose promise never settles is not modelled. The source then stalls, and the callback never runs. The transport oracle always answers, so `SendMail` always yields a callback value.
- Dispatch.SendQueue, Mailing.Mailer.SendMail: the source reads `this.mailAlias` (index.js:140) and `this.mailClient` (index.js:153) again for each delivery. For every entry after the first one sent, that read happens after `sendMail` has returned, so a `create` during dispatch changes the sender and the transport for later messages. The model fixes both when the call starts.
- Mailing.Mailer.Create: omitted options are not modelled. The doc comment at index.js:24-25 promises the defaults `App-#pid` and `logmailer-#pid` for `appName` and `mailAlias`. But lines 37-38 store `undefined`, so the subject starts with "undefined" and `from` is undefined. `Create` takes strings, so it cannot express an omitted option. The comment and the code disagree; the model follows the code, which overwrites both fields.
- HtmlTable.Table, HtmlTable.ConvertObjectToHTMLTable: cyclic records are not modelled. On a record that contains itself, `convertObjectToHTMLTable` recurses without bound at index.js:210 and overflows the stack. `Value` is a finite tree, so the `decreases` clauses hold only because a cycle cannot be represented.
- Escaping of HTML: there is none in the source and none in the model; caller content is embedded verbatim.
