# SCEAR site logic in Dafny

This project models the client-side logic of the SCEAR website, a Roman
re-enactment society's site built with Next.js and React. It covers five parts:

- **Gallery page** (`Gallery`, `GalleryPage`): the gallery items and the search/category filter. It also covers the
  sort menu (newest, oldest, most liked, most viewed) and the lightbox's
  previous/next buttons and the "Reset Filters" button.
  - The filter is proved to keep exactly the matching items, in their order.
  - The sort is proved to order the items by the chosen key and to be stable.
    It is the only stable sort with that order, which is what `Array.prototype.sort`
    promises (section 23.1.3.30 of ECMA-262).
  - The lightbox steps are proved to wrap around and to undo each other.
    When the open image is no longer among the displayed ones, the model gives
    the outcome the JavaScript actually produces.
- **Chat widget** (`Chatbot`): keyword classification of a message into a topic,
  and an answer drawn from that topic's pool. Sending is covered too: a blank message
  is ignored; otherwise the visitor's message is appended, then the bot's answer.
  The first-match order of the keyword tests is proved, and so is the fact that
  every answer belongs to exactly one pool.
- **Testimonial carousel** (`Carousel`): the autoplay tick, the arrows and the
  dots, with the index always in range. Next and previous undo each other.
- **Membership and contact forms** (`Schema`, `JoinForm`, `ContactForm`): the zod
  schemas as the set of fields a form is rejected on, and the interests checkbox
  toggle of the membership form. Each schema appears twice.
  - `IssuesAsWritten` is the schema as the source writes it, and `ValidAsWrittenIff` states
    exactly which forms it accepts.
  - `Issues` and `Valid` are the corrected schema, which accepts a blank optional
    phone (see "## Findings"). `AsWrittenDiffersOnBlankPhone` shows the two differ
    only there.
- **Shared pieces** (`Text`, `Cyclic`, `Sequences`, `Wrappers`): JavaScript's
  `toLowerCase`, `includes`, `trim` and truncating `%`, order-preserving
  selections from a list, and an option type.

A class stands for each component whose state the source updates: `GalleryView`,
`ChatWidget` and `TestimonialCarousel`. Each React state variable is a field,
and each event handler is a method with a `modifies` clause. The state setters'
effects are applied at once; the pending timers are separate methods
(`ChatWidget.DeliverReply`, `ChatWidget.ShowGreeting`, `TestimonialCarousel.Tick`).
The filters, the sort and the schemas are pure and are modelled as functions.

Several things the source gets from the environment are parameters:

- `Math.random()` is a `real` in [0, 1).
- zod's e-mail check is a `string -> bool`.
- Dates are integer keys that increase with time (`Gallery.MonthKey`).

## Model

| member | source | states |
|---|---|---|
| Text.ToLower | app/gallery/page.tsx:170 | lower-cased string has the same length, and each character is mapped by ASCII lower-casing |
| Text.ToLowerIdempotent | components/chatbot/chatbot-widget.tsx:117 | lower-casing twice is lower-casing once |
| Text.ToLowerSpec | app/gallery/page.tsx:170-172 | the result has no upper-case letter, and every other character is unchanged |
| Text.ContainsIff | app/gallery/page.tsx:170-172 | `includes` holds exactly when the searched string occurs at some index |
| Text.ContainsEmpty | app/gallery/page.tsx:170 | every string includes the empty string, so an empty search matches every title |
| Text.ContainsInfix | components/chatbot/chatbot-widget.tsx:119 | a string includes every string written inside it |
| Text.TrimStart | components/chatbot/chatbot-widget.tsx:85 | the result is a suffix of the input; everything removed is white space, and the result does not start with white space |
| Text.TrimEnd | components/chatbot/chatbot-widget.tsx:85 | the result is a prefix of the input; everything removed is white space, and the result does not end with white space |
| Text.IsBlankIff | components/chatbot/chatbot-widget.tsx:85 | `trim() === ''` exactly when every character is ECMAScript white space or a line terminator |
| Text.TrimEndEmpty | components/chatbot/chatbot-widget.tsx:85 | trimming the end empties a string only when all of it is white space |
| Cyclic.JsRem | components/home/testimonial-carousel.tsx:46 | JavaScript `%`: the remainder has the dividend's sign and magnitude below the divisor, and differs from the dividend by a multiple of the divisor; a dividend already in range is returned unchanged |
| Cyclic.MultipleHasNoRemainder | components/home/testimonial-carousel.tsx:46 | a multiple of the divisor leaves remainder 0 |
| Cyclic.JsRemOfDivisor | components/home/testimonial-carousel.tsx:46 | the divisor itself leaves remainder 0 |
| Cyclic.NextIndex | components/home/testimonial-carousel.tsx:54 | from an index in range: the next index, and the first after the last |
| Cyclic.PrevIndex | components/home/testimonial-carousel.tsx:59 | from an index in range: the previous index, and the last before the first |
| Cyclic.StepsStayInRange | app/gallery/page.tsx:390 | both steps from an index in range stay in range |
| Cyclic.StepsAreInverse | components/home/testimonial-carousel.tsx:52-60 | next then previous, and previous then next, return to the start |
| Cyclic.SingleStep | app/gallery/page.tsx:447 | with one position both steps stay on it |
| Cyclic.StepsFromMissing | app/gallery/page.tsx:389-390 | from `findIndex`'s -1, next gives 0, and previous gives n-2 (0 when n = 1) |
| Gallery.GalleryItemsHaveUniqueIds | app/gallery/page.tsx:20-125 | the eight gallery items have distinct ids |
| Gallery.Filter | app/gallery/page.tsx:167-176 | an item is kept exactly when it is in the list, matches the search (title, description or a tag, case-insensitively) and matches the category; a matching item is kept as often as it occurs and a non-matching one never; the kept items stay in their order |
| Sequences.SubsequenceMembers | app/gallery/page.tsx:167-168 | what an order-preserving selection keeps is drawn from its input |
| Gallery.SubsequenceKeepsIdsUnique | app/gallery/page.tsx:167-168 | dropping items keeps ids distinct |
| Gallery.FilterKeepsIdsUnique | app/gallery/page.tsx:167-176 | filtering a list with distinct ids gives one with distinct ids |
| Gallery.EmptyQueryAndAllCategory | app/gallery/page.tsx:169-174 | an empty search leaves only the category test, and the "All" category leaves only the search test |
| Gallery.DefaultFilterKeepsAll | app/gallery/page.tsx:167-176 | an empty search in the "All" category keeps the whole list, in order |
| Gallery.Compare | app/gallery/page.tsx:177-190 | the comparator is the difference of the two items' ranks for the chosen key: date descending, date ascending, likes descending, views descending, 0 for any other key |
| Gallery.WithRank | app/gallery/page.tsx:177-190 | the items of one rank are exactly the members with that rank |
| Gallery.WithRankCons | app/gallery/page.tsx:177-190 | the items of one rank in a list extended at the front |
| Gallery.SortedTail | app/gallery/page.tsx:177-190 | the tail of a sorted list is sorted |
| Gallery.SortedHeadIsLeast | app/gallery/page.tsx:177-190 | the head of a sorted list has the least rank |
| Gallery.SortedCons | app/gallery/page.tsx:177-190 | putting an item of least rank in front keeps a list sorted |
| Gallery.Insert | app/gallery/page.tsx:177 | inserting adds exactly the one item |
| Gallery.MultisetMembers | app/gallery/page.tsx:177 | after an insertion every member is the new item or an old one |
| Gallery.InsertSorted | app/gallery/page.tsx:177-190 | inserting into a sorted list keeps it sorted |
| Gallery.InsertStable | app/gallery/page.tsx:177-190 | the new item goes in front of the items of its rank, and other ranks are untouched; as `Sort` inserts each item into the sorted rest of the list, equal items keep their input order |
| Gallery.InsertKeepsIdsUnique | app/gallery/page.tsx:177 | inserting an item with a fresh id keeps ids distinct |
| Gallery.Sort | app/gallery/page.tsx:177-190 | the result is a permutation of the input, ordered by the key |
| Gallery.SortStable | app/gallery/page.tsx:177-190 | items whose comparison is 0 keep their relative order |
| Gallery.TailKeepsIdsUnique | app/gallery/page.tsx:177 | the tail of a list with distinct ids has distinct ids |
| Gallery.SortKeepsIdsUnique | app/gallery/page.tsx:177-190 | sorting keeps ids distinct |
| Gallery.SortedStableUnique | app/gallery/page.tsx:177-190 | two sorted lists that keep the same per-rank order are equal |
| Gallery.SortIsTheStableSort | app/gallery/page.tsx:177-190 | any sorted, stable reordering of the input is exactly `Sort`'s result |
| Gallery.SortIdempotent | app/gallery/page.tsx:177-190 | sorting a sorted list changes nothing, so sorting twice is sorting once |
| Gallery.UnknownKeyKeepsOrder | app/gallery/page.tsx:187-188 | with a key outside the four options the list keeps its order |
| Gallery.SortedMeaning | app/gallery/page.tsx:178-186 | sorted means newest first, oldest first, most liked first or most viewed first, per key |
| Gallery.PermutationMembers | app/gallery/page.tsx:177 | a permutation has the same members |
| Gallery.Project | app/gallery/page.tsx:167-190 | `filteredAndSortedItems`: exactly the matching items, a permutation of the filter's output, ordered by the key, stable, ids distinct when the source's ids are |
| Gallery.DefaultProjectionShowsAll | app/gallery/page.tsx:351-355 | with no search and category "All" every item is displayed; with an unknown key, in the source order |
| Gallery.FindIndex | app/gallery/page.tsx:389 | `findIndex` gives the first index with the id, or -1 exactly when there is none |
| Gallery.At | app/gallery/page.tsx:391 | indexing gives an item exactly for an index in range, and `undefined` otherwise |
| Gallery.StepsFromEntry | app/gallery/page.tsx:386-392 | for a displayed image: previous is the one before it (the last before the first), and next is the one after it (the first after the last) |
| Gallery.StepsWrapAround | app/gallery/page.tsx:444-449 | next from the last image gives the first, and previous from the first gives the last |
| Gallery.StepsAreInverse | app/gallery/page.tsx:386-449 | next then previous, and previous then next, return to the image shown |
| Gallery.SingleEntrySteps | app/gallery/page.tsx:386-449 | with one image displayed both buttons show it |
| Gallery.StepsFromMissingEntry | app/gallery/page.tsx:386-449 | if the shown image was filtered out, next shows the first image and previous the second-to-last (the first if only one), and with nothing displayed the lightbox closes |
| Gallery.StepsStayInList | app/gallery/page.tsx:386-449 | from a displayed image both buttons show a displayed image |
| GalleryPage.GalleryView.constructor | app/gallery/page.tsx:154-157 | the page opens with no image, empty search, category "All", newest first, over the eight items |
| GalleryPage.GalleryView.SetSearchQuery | app/gallery/page.tsx:261 | the search box sets the query and nothing else |
| GalleryPage.GalleryView.SelectCategory | app/gallery/page.tsx:246 | a category button sets the category and nothing else |
| GalleryPage.GalleryView.SetSortBy | app/gallery/page.tsx:266 | the sort menu sets the key and nothing else |
| GalleryPage.GalleryView.OpenImage | app/gallery/page.tsx:309 | a click on a displayed tile opens it in the lightbox |
| GalleryPage.GalleryView.CloseLightbox | app/gallery/page.tsx:372 | closing empties the lightbox and leaves the filters alone |
| GalleryPage.GalleryView.ShowPrevious | app/gallery/page.tsx:386-392 | the lightbox shows `StepBack` of the displayed list, the filters are unchanged, and a displayed image stays displayed |
| GalleryPage.GalleryView.ShowNext | app/gallery/page.tsx:444-449 | the lightbox shows `StepForward` of the displayed list, the filters are unchanged, and a displayed image stays displayed |
| GalleryPage.GalleryView.ResetFilters | app/gallery/page.tsx:351-355 | category "All", empty search, newest first; every item is displayed again, and the lightbox is untouched |
| Chatbot.Pool | components/chatbot/chatbot-widget.tsx:11-41 | each topic has at least two canned answers |
| Chatbot.PoolLengths | components/chatbot/chatbot-widget.tsx:11-41 | every answer's length is one of its pool's lengths |
| Chatbot.LengthsDisjoint | components/chatbot/chatbot-widget.tsx:11-41 | the pools' answer lengths do not overlap |
| Chatbot.PoolsDisjoint | components/chatbot/chatbot-widget.tsx:11-41 | no answer is in two pools |
| Chatbot.ClassifyIsFirstMatch | components/chatbot/chatbot-widget.tsx:116-132 | the topic is events, membership, equipment, training or history exactly when the lower-cased message mentions one of its keywords and none of an earlier topic's; otherwise it is the fallback |
| Chatbot.EventsTakePriority | components/chatbot/chatbot-widget.tsx:119-120 | a message mentioning an events keyword gets an events answer, whatever else it mentions |
| Chatbot.ClassifyIgnoresCase | components/chatbot/chatbot-widget.tsx:117 | classifying is insensitive to ASCII case |
| Chatbot.PickIndex | components/chatbot/chatbot-widget.tsx:120 | `Math.floor(Math.random() * length)` is a valid index |
| Chatbot.GenerateResponse | components/chatbot/chatbot-widget.tsx:116-132 | the answer comes from the pool of the message's topic |
| Chatbot.AnswerInExactlyOnePool | components/chatbot/chatbot-widget.tsx:116-132 | the answer is in a topic's pool exactly when that is the message's topic |
| Chatbot.Exchange | components/chatbot/chatbot-widget.tsx:84-113 | a blank message leaves the conversation as it was; otherwise the earlier messages are kept, then come the visitor's message as typed and the bot's answer from the right pool |
| Chatbot.BlankIsIgnored | components/chatbot/chatbot-widget.tsx:85 | a message of white space only changes nothing; one with any other character adds two messages |
| Chatbot.ChatWidget.constructor | components/chatbot/chatbot-widget.tsx:52-55 | closed, empty input, no messages, not typing |
| Chatbot.ChatWidget.ToggleOpen | components/chatbot/chatbot-widget.tsx:139 | the chat button flips the window open or shut and changes nothing else |
| Chatbot.ChatWidget.SetInput | components/chatbot/chatbot-widget.tsx:236 | typing sets the input and nothing else |
| Chatbot.ChatWidget.StartGreeting | components/chatbot/chatbot-widget.tsx:58-63 | when the window is open and the conversation empty, a greeting from the greeting pool is drawn for the timer and the typing indicator goes on; otherwise nothing changes |
| Chatbot.ChatWidget.ShowGreeting | components/chatbot/chatbot-widget.tsx:64-74 | the greeting becomes the whole conversation and the typing indicator goes off |
| Chatbot.ChatWidget.Greet | components/chatbot/chatbot-widget.tsx:58-76 | with the timer firing first: when the window is open and the conversation empty, the conversation becomes one bot greeting from the greeting pool; otherwise nothing changes |
| Chatbot.ChatWidget.SendMessage | components/chatbot/chatbot-widget.tsx:84-99 | a blank input changes nothing; otherwise the visitor's message is appended, the input is cleared, the typing indicator goes on, and the text awaiting an answer is returned |
| Chatbot.ChatWidget.DeliverReply | components/chatbot/chatbot-widget.tsx:100-112 | the bot's answer from the topic's pool is appended, and the typing indicator goes off |
| Chatbot.ChatWidget.SendAndReply | components/chatbot/chatbot-widget.tsx:84-113 | a send answered before any other event grows the conversation by `Exchange` and never alters earlier messages; after a non-blank send the input is empty and the typing indicator off, and a blank send leaves both as they were |
| Carousel.CountIsLength | components/home/testimonial-carousel.tsx:9-34 | there are four testimonials |
| Carousel.TestimonialCarousel.constructor | components/home/testimonial-carousel.tsx:37-38 | the first testimonial is shown, with autoplay on |
| Carousel.TestimonialCarousel.Tick | components/home/testimonial-carousel.tsx:40-50 | with autoplay on, a tick moves to the next testimonial (the first after the last); with it off, nothing changes; autoplay itself is unchanged |
| Carousel.TestimonialCarousel.Next | components/home/testimonial-carousel.tsx:52-55 | autoplay stops, and the next testimonial is shown, the first after the last |
| Carousel.TestimonialCarousel.Prev | components/home/testimonial-carousel.tsx:57-60 | autoplay stops, and the previous testimonial is shown, the last before the first |
| Carousel.TestimonialCarousel.DotClick | components/home/testimonial-carousel.tsx:62-65 | autoplay stops, and the chosen testimonial is shown |
| Carousel.NextThenPrev | components/home/testimonial-carousel.tsx:52-60 | next then previous shows the starting testimonial again, with autoplay off |
| Carousel.PrevThenNext | components/home/testimonial-carousel.tsx:52-60 | previous then next shows the starting testimonial again, with autoplay off |
| Schema.Check | app/join/page.tsx:39-73 | a field is reported exactly when its rule fails, and no other field is |
| JoinForm.IssuesPerField | app/join/page.tsx:39-73 | in the corrected schema (the schema as written: `AsWrittenDiffersOnBlankPhone`), each field is rejected exactly when its own rule fails (names 2, address 5, city 2, postal code 4, country 2 characters; the e-mail; the membership type; at least one interest; the terms accepted; a phone left blank, or at least 10 characters) |
| JoinForm.AsWrittenDiffersOnBlankPhone | app/join/page.tsx:49-51 | the schema as written rejects a present phone shorter than 10 characters, even an empty one; otherwise it agrees with the corrected schema |
| JoinForm.ValidIff | app/join/page.tsx:39-73 | in the corrected schema, an application passes exactly when every rule holds, a blank phone included |
| JoinForm.ValidAsWrittenIff | app/join/page.tsx:39-73 | the schema as written passes an application exactly when names have 2, address 5, city 2, postal code 4 and country 2 characters; the e-mail passes; the type is one of the four; an interest is selected; the terms are accepted; and the phone is absent or at least 10 characters |
| JoinForm.InterestsAndTermsRequired | app/join/page.tsx:65-72 | with no interest selected, or the terms not accepted, the application is refused |
| JoinForm.DefaultFormRejected | app/join/page.tsx:132-146 | the form as first shown is refused, and as written its empty phone is one reason |
| JoinForm.BlankPhoneRejectedAsWritten | app/join/page.tsx:49-51 | an application complete except for a blank optional phone is refused as written for the phone alone, and accepted by the corrected schema |
| JoinForm.BlankPhoneSameAsAbsent | app/join/page.tsx:49-51 | in the corrected schema, a blank phone is treated like an absent one |
| JoinForm.Without | app/join/page.tsx:486-488 | unchecking removes every copy of the id and keeps every other id as often as it was there |
| JoinForm.CheckAppends | app/join/page.tsx:484-485 | checking shows the box checked, keeps the earlier selection, and adds the id once at the end |
| JoinForm.UncheckRemoves | app/join/page.tsx:486-488 | unchecking shows the box unchecked and keeps the other ids, as often as they were there and in order |
| JoinForm.UncheckAbsent | app/join/page.tsx:486-488 | unchecking an id that is not selected changes nothing |
| JoinForm.CheckThenUncheck | app/join/page.tsx:481-489 | checking and then unchecking an unchecked box restores the selection |
| ContactForm.IssuesPerField | app/contact/page.tsx:29-45 | in the corrected schema (the schema as written: `AsWrittenDiffersOnBlankPhone`), each field is rejected exactly when its own rule fails (name 2, subject 2, message 10 characters; the e-mail; a phone left blank, or at least 10 characters) |
| ContactForm.AsWrittenDiffersOnBlankPhone | app/contact/page.tsx:36-38 | the schema as written rejects a present phone shorter than 10 characters, even an empty one; otherwise it agrees with the corrected schema |
| ContactForm.ValidIff | app/contact/page.tsx:29-45 | in the corrected schema, a message passes exactly when every rule holds, a blank phone included |
| ContactForm.ValidAsWrittenIff | app/contact/page.tsx:29-45 | the schema as written passes a message exactly when name and subject have 2 and message 10 characters, the e-mail passes, and the phone is absent or at least 10 characters |
| ContactForm.DefaultContactRejected | app/contact/page.tsx:61-67 | the form as first shown is refused: name, subject and message are empty, and as written the empty phone too |
| ContactForm.BlankPhoneRejectedAsWritten | app/contact/page.tsx:36-38 | a message complete except for a blank optional phone is refused as written for the phone alone, and accepted by the corrected schema |
| ContactForm.BlankPhoneSameAsAbsent | app/contact/page.tsx:36-38 | in the corrected schema, a blank phone is treated like an absent one |

## Left out

- Rendering is not modelled: JSX, styling, framer-motion animations, the masonry layout, images and icons. The same goes for the pages outside these four components:
  - events, admin, about, static pages;
  - the header and the WhatsApp button.
- The gallery's loading flag and filter-panel toggle are not modelled; they only change what is drawn.
- Dates are not parsed. `new Date(...).getTime()` is an integer key built by `Gallery.MonthKey`, which increases with the date. A malformed date, whose key would be NaN, cannot occur among the fixed items.
- Gallery.Compare: a comparator result of NaN is not modelled, since every date, like and view count is a number.
- Text.ToLower: lower-cases ASCII letters only, because Unicode case mapping is out of reach. Every keyword and gallery text is ASCII.
- zod's `.min(n)` counts UTF-16 code units; the model counts Dafny characters. The two agree on text outside the astral planes.
- zod's e-mail regular expression is a parameter, `isEmail`, and is not modelled.
- `Math.random()` is a parameter in [0, 1). `Date.now()` and `new Date()`, used for message ids and timestamps, are not modelled.
- Timer delays are not modelled, and neither are interleavings of events while a reply is pending. `ChatWidget.SendAndReply` covers a reply that arrives before anything else happens. `ChatWidget.SendMessage` and `ChatWidget.DeliverReply` model the two halves separately.
- The scroll-to-bottom effect, the disabled state of the send button, and the Enter-key form submission are not modelled; the latter calls the same `handleSendMessage`.
- The form submission handlers (toast messages, simulated network delay, form reset) are not modelled.
- The checkbox's "indeterminate" state is not modelled; these boxes are never put in it, so checking reports a boolean.
- The gallery page's `items` are the eight fixed items. Their upload, editing and deletion on the admin pages is not part of this model.
- GalleryPage.GalleryView.constructor: states that the items are the fixed list with distinct ids, but not what is displayed initially. `Gallery.DefaultProjectionShowsAll` states that it is every item.

## Findings

| source | as written | input that shows it | evidently intended | confidence | as-written member | corrected member |
|---|---|---|---|---|---|---|
| app/join/page.tsx:49-51 | the phone is `z.string().min(10).optional()` while the form's default phone is `""` (line 136), so an empty phone is present and too short | an application valid in every other field whose "Phone (Optional)" box (line 356) is left blank is refused with the phone error | a blank optional phone is accepted like an absent one | high; not executed | JoinForm.BlankPhoneRejectedAsWritten | JoinForm.BlankPhoneSameAsAbsent |
| app/contact/page.tsx:36-38 | same schema, with default phone `""` (line 64) | a contact message valid in every other field whose "Phone (Optional)" box (line 178) is left blank is refused with the phone error | a blank optional phone is accepted like an absent one | high; not executed | ContactForm.BlankPhoneRejectedAsWritten | ContactForm.BlankPhoneSameAsAbsent |
