# Portfolio contact endpoint and page scripts — a Dafny model

This project models the decision logic of a personal portfolio site. That logic lives in two places:

- **contact.php** — the contact-form endpoint:
  - the per-address fixed-window rate limiter `checkRateLimit`, which runs first for every request;
  - the sanitizer, which does `trim`, then `strip_tags`, then `htmlspecialchars` with ENT_QUOTES;
  - `ContactFormHandler::validate`, which fills a field→message error map;
  - `process`, which picks the HTTP status and decides whether mail is sent and the log is written;
  - the JSON payload built by `sendResponse`.
- **script.js** — the client-side state machines:
  - the `TypingEffect` typewriter;
  - the `TestimonialsSlider` index and dots;
  - `ThemeToggle`;
  - the "exactly one active" rules of `ProjectsFilter.filter`, `SkillsTabs.switchTab` and `ExperienceTabs.switchTab`;
  - the client checks of `ContactForm`: `isValidEmail`, `validateField`, `clearError` and the validation loop of `handleSubmit`.

Objects whose fields the source updates become classes:

- the rate-limit directory: `RateLimit.RateLimiter`;
- the form handler: `ContactForm.ContactFormHandler`;
- the typewriter, the slider and the theme state;
- the filter and tab widgets, whose DOM collections are arrays of booleans holding whether each element carries `active` or `hidden`;
- the client form, whose group error flags and error texts are arrays.

Each method is proved against a value-level reference function, for example:

- `Step`, `Problems`/`Messages`, `Answer` and `Outcome` for the endpoint;
- `Advance`, `NextIndex`/`PrevIndex`, `Toggled`, `OnlyAt`, `Matching`, `Hidden` and `Check` for the page.

The lemmas then prove what the source promises about those reference functions.

Files:

- `wrappers.dfy` — `Option`.
- `rate_limit.dfy` — the rate limiter. The clock is the parameter `now`. The store is a map from an address's file to its decoded record. A file whose content does not decode counts as a missing one.
- `php_text.dfy` — PHP's `trim`, the HTML escaping, `strlen` as the UTF-8 byte length, and `empty` on strings (true for `""` and `"0"`).
- `contact_form.dfy` — validation, `getInput`, `process`, `sendResponse` and the script's top level.
- `typing.dfy`, `slider.dfy`, `theme.dfy`, `selection.dfy`, `client_form.dfy` — the script.js modules.

Behaviour of the code, followed as written:

- **Sanitizing is not idempotent.** A second pass turns `&amp;` into `&amp;amp;`. The model follows the code and proves the difference (`PhpText.SanitizeTwiceDiffers`).
- **Lengths are byte lengths of the escaped text.** They are checked after escaping, so one `&` typed by the user counts as five bytes (`PhpText.AmpersandCountsFive`).
- **The phone pattern's `$` admits a trailing newline.** It has no `D` modifier, so it also matches just before a final newline: twenty pattern characters followed by `"\n"` pass. `trim` removes a trailing newline, but `strip_tags` runs after `trim` and can expose one again (`ContactForm.PhoneNewlineAccepted`).
- **A rate-limited request is answered with 200.** The denial path of `checkRateLimit` writes its JSON and exits without setting a status.
- **Every request goes through the rate check.** It runs before the method check, so a GET within the limit is counted as well; a denied request leaves the count as it was.
- **The honeypot never fires for JSON.** It is read from the form body only, so a JSON request cannot trip it (`ContactForm.JsonNeverSpam`).

## Model

| member | source | states |
|---|---|---|
| RateLimit.FileFor | contact.php:286 | The rate file of an address is determined by the address alone (md5 taken as injective). |
| RateLimit.RateLimiter.constructor | contact.php:290 | The limiter starts with no rate files. |
| RateLimit.Step | contact.php:290-310 | The reference description of one `checkRateLimit` call: a denial leaves the directory as it was, and an allowed request leaves a readable record for its address. |
| RateLimit.RateLimiter.CheckRateLimit | contact.php:283-311 | Reset: with no usable record or an elapsed window, the request is allowed and the record becomes `{now, 1}`. Increment: inside the window under the limit, it is allowed, count rises by one and `first_request` is kept. Deny: inside the window at count >= 5, it is denied and nothing is written. Isolation: no other address's file changes. Counts stay within 1..5. |
| RateLimit.StepKeepsBounded | contact.php:293-310 | One request keeps every stored count within 1..LIMIT. |
| RateLimit.RunKeepsBounded | contact.php:293-310 | Any sequence of requests keeps every stored count within 1..LIMIT. |
| RateLimit.LiveWindowAdmits | contact.php:293-302 | Inside the window of a record with count c, at most 5 - c further requests are allowed, however many arrive. |
| RateLimit.LiveWindowExact | contact.php:293-302 | Inside the window of a record with count c, at any timestamps: request i is allowed iff i < 5 - c, so the first 5 - c pass and every later one is denied. |
| RateLimit.FreshWindowExact | contact.php:287-310 | For requests opening a fresh window, at any times less than 3600 s after the first: request i is allowed iff i < 5. |
| RateLimit.FreshWindowAdmitsAtMostLimit | contact.php:287-310 | Starting a fresh window, at most 5 requests pass during the 3600 seconds from its first request. |
| RateLimit.StepOnSingleRecord | contact.php:290-310 | Against a single record, a request resets it (window elapsed), leaves it (at limit) or increments it. |
| RateLimit.WindowFromOne | contact.php:293-302 | Four more same-second requests after the first are all allowed and bring the count to 5. |
| RateLimit.FreshWindowFills | contact.php:287-310 | From no file, five same-second requests all pass and leave `{t, 5}`. |
| RateLimit.SixthRequestDenied | contact.php:287-301 | From no file, five same-second requests pass and the sixth is denied. |
| RateLimit.WindowElapsedResets | contact.php:293-305 | After the window has elapsed, the next request passes and restarts the record at `{later, 1}`. |
| RateLimit.BoundaryBurst | contact.php:288-305 | The window is fixed, not sliding: ten requests straddling a window boundary all pass. |
| PhpText.Trim | contact.php:89 | PHP `trim`: the result is never longer than its input (its shape is given by the next two rows). |
| PhpText.TrimRemovesOnlySpace | contact.php:89 | `trim` returns a contiguous part `s[i..j]` of its input, and everything it removes before `i` and after `j` is one of " \t\n\r\0\x0B". |
| PhpText.TrimEnds | contact.php:89 | What `trim` returns neither starts nor ends with one of " \t\n\r\0\x0B". |
| PhpText.TrimUntouched | contact.php:89 | A string without trim characters at its ends is its own `trim`. |
| PhpText.Escape | contact.php:89 | The `htmlspecialchars` ENT_QUOTES output holds no `<`, `>`, `"` or `'`, and is never shorter than its input. |
| PhpText.UnescapeEscape | contact.php:89 | Escaping loses nothing: decoding the five entities gives the input back. |
| PhpText.EscapeInjective | contact.php:89 | Different inputs escape to different outputs. |
| PhpText.EscapeTwiceDiffers | contact.php:89 | Escaping is not idempotent: `&` escapes to `&amp;`, and that escapes to `&amp;amp;`. |
| PhpText.EscapeFixedPoint | contact.php:89 | Escaping leaves a string unchanged exactly when it holds none of `& < > " '`. |
| PhpText.Utf8Width | contact.php:100-102 | A character takes 1 to 4 bytes, and exactly 1 iff it is ASCII. |
| PhpText.ByteLen | contact.php:100-102 | `strlen` lies between the character count and four times it. |
| PhpText.ByteLenConcat | contact.php:100-102 | Byte lengths add up over concatenation. |
| PhpText.AsciiByteLen | contact.php:100-102 | An ASCII string has as many bytes as characters. |
| PhpText.IsEmpty | contact.php:98 | PHP `empty()` on a string holds only for "" and "0", so an empty value has at most one character. |
| PhpText.Sanitize | contact.php:87-90 | The sanitized value holds no `<`, `>`, `"` or `'`, whatever `strip_tags` does. |
| PhpText.AmpersandCountsFive | contact.php:89-100 | A lone `&` sanitizes to `&amp;` and counts five bytes for the length rules. |
| PhpText.SanitizeTwiceDiffers | contact.php:87-90 | Sanitizing the sanitized `&` gives `&amp;amp;`, which differs from one pass. |
| ContactForm.LengthProblem | contact.php:98-104 | Exactly one outcome per value, in the order empty ("" or "0") → fewer than min bytes → more than max bytes → none, each stated as an iff. |
| ContactForm.KeysDistinct | contact.php:99-138 | The six error keys "name", "email", "phone", "subject", "message", "spam" are distinct, so each field has its own entry in the JSON error object. |
| ContactForm.PhoneMatches | contact.php:114 | `preg_match('/^[\d\s\+\-\(\)]{10,20}$/')`: 10 to 20 class characters, or 20 followed by a final newline, so a match has 10 to 21 characters. |
| ContactForm.EmailProblem | contact.php:107-111 | The email fails iff it is empty (Missing) or `filter_var` rejects it (Invalid). |
| ContactForm.PhoneProblem | contact.php:114-116 | The phone fails iff it is non-empty and does not match `^[\d\s\+\-\(\)]{10,20}$`, and then only as Invalid. |
| ContactForm.SpamProblem | contact.php:137-139 | A non-empty honeypot is spam, and an empty one is not. |
| ContactForm.Problems | contact.php:95-141 | A key is in the problem map iff its rule fires, and it holds that rule's problem; only the six keys can appear. |
| ContactForm.Messages | contact.php:95-141 | The error map has exactly the keys of the problem map. |
| ContactForm.Filled | contact.php:95-139 | The error map after the six assignments of `validate` in source order: no key already present is removed (its per-key content is FilledAt). |
| ContactForm.FilledAt | contact.php:95-139 | After the rules run in order, a key holds its rule's message if the rule fired, and otherwise its previous entry. |
| ContactForm.FillInOrder | contact.php:95-139 | Running the six rules in source order adds exactly the messages of the problem map to the existing errors. |
| ContactForm.CheckLength | contact.php:98-104 | One length chain records the message of its first failing test under its key, and nothing if none fails. |
| ContactForm.CheckEmail | contact.php:107-111 | The email branch records "missing" or "invalid", or nothing. |
| ContactForm.CheckPhone | contact.php:114-116 | The phone branch records "invalid" only for a non-empty phone that fails the pattern. |
| ContactForm.CheckSpam | contact.php:137-139 | The honeypot branch records `spam` iff the honeypot is non-empty. |
| ContactForm.Contains | contact.php:70 | `strpos($s, $part) !== false`: a part that is found is no longer than the string. |
| ContactForm.ContainsMeaning | contact.php:70 | `Contains(s, part)` holds iff `part` occurs at some position `i` of `s`, that is `s[i..i+|part|] == part`. |
| ContactForm.ReadData | contact.php:68-75 | The fields come from the JSON body when the Content-Type contains `application/json` (an empty map if it does not decode), and from `$_POST` otherwise. |
| ContactForm.SendResponse | contact.php:264-279 | The payload carries the given status, success and message, and an `errors` member iff the error map is non-empty, holding that map. |
| ContactForm.Outcome | contact.php:36-60 | The reference reply of `process()` for a request the limiter let through: 405 iff the method is not POST, and a log entry only after mail was sent successfully. |
| ContactForm.Answer | contact.php:36-60 | Non-POST gives 405 with no validation. Errors give 400 with the error messages and no mail. A clean submission sends mail, then logs and answers 200 on success, or answers 500 with no log. `success` iff 200. |
| ContactForm.RateLimitedReply | contact.php:294-301 | A denied request gets status 200 with success false and no errors. Nothing is mailed or logged. |
| ContactForm.ContactFormHandler.constructor | contact.php:24-31 | A new handler has empty fields and no errors. |
| ContactForm.ContactFormHandler.GetInput | contact.php:65-82 | Each of the five fields becomes the sanitized value of its key in the chosen body, or of "" when missing. The error map is untouched. |
| ContactForm.ContactFormHandler.Validate | contact.php:95-142 | The error map gains exactly the messages of the rules that fire. The result is true iff the map is empty. |
| ContactForm.ContactFormHandler.Process | contact.php:36-60 | On a fresh handler, the reply is the reference outcome: method check, sanitized input, validation with the `$_POST` honeypot, then mail and log. |
| ContactForm.ContactFormHandler.Respond | contact.php:48-59 | After validation: 400 with the errors, or mail, log and 200, or 500 with no log. |
| ContactForm.HandleRequest | contact.php:313-318 | The rate check runs first for every request: an allowed request writes its record, and a denied one leaves the store as it was and gets the rate-limited reply. An allowed one gets the outcome of `process`. |
| ContactForm.MessagesNonEmpty | contact.php:95-139 | Every message `validate` stores is one of its non-empty texts. |
| ContactForm.MissingFieldRejected | contact.php:98-134 | An empty (or "0") name, email, subject or message is reported under its own key with its "missing" text, and the request fails with 400 and no mail. |
| ContactForm.LongMessageRejected | contact.php:132-133 | A message over 5000 bytes fails with 400 and the too-long text under `message`. |
| ContactForm.HoneypotRejects | contact.php:137-139 | A filled honeypot gives 400 with `spam`, no mail and no log, whatever the other fields hold. |
| ContactForm.NoProblemsIffAllRulesPass | contact.php:141 | `validate` succeeds iff no rule fires. |
| ContactForm.PhoneWithoutFinalNewline | contact.php:114 | For a phone not ending in a newline, the pattern accepts exactly 10 to 20 pattern characters. |
| ContactForm.PhoneNewlineAccepted | contact.php:114 | When `strip_tags` leaves 20 pattern characters and a final newline, the 21-character phone passes validation. |
| ContactForm.PlainSanitized | contact.php:87-90 | ASCII text without special or edge trim characters comes through the sanitizer unchanged, one byte per character. |
| ContactForm.PlainJsonInput | contact.php:65-82 | A JSON request with plain-text values is stored field by field as sent, and its honeypot is empty. |
| ContactForm.JsonNeverSpam | contact.php:137 | A JSON request never produces the `spam` error. |
| Typing.Substring | script.js:272-275 | `substring(0, end)` is a prefix of the text, of length `end` clamped to `0..length`. |
| Typing.Advance | script.js:268-288 | One `type()` call from a consistent cursor yields a consistent cursor. |
| Typing.AdvanceMeaning | script.js:268-288 | The element shows the first `charIndex` characters. Typing adds one and, on completing the phrase, turns to deleting with 2000 ms, otherwise 100 ms. Deleting removes one and, on reaching 0, moves to `(textIndex+1) % 5` with 500 ms, otherwise 50 ms. |
| Typing.Run | script.js:290 | Any number of `type()` calls keeps the cursor consistent. |
| Typing.TypingPhase | script.js:275-283 | Typing a phrase from character j takes `length - j` calls, at 100 ms each and 2000 ms for the last, and ends in deleting mode at full length. |
| Typing.DeletingPhase | script.js:272-287 | Deleting from j takes j calls, at 50 ms each and 500 ms for the last, and lands at the start of the next phrase. |
| Typing.FullCycle | script.js:268-290 | `2 * length` calls type, pause on and delete a phrase, reach the start of the next one, and take `150 * length + 2350` ms. |
| Typing.TypingEffect.constructor | script.js:251-265 | `init` installs the five phrases and makes the first `type()` call: the cursor is at character 1 of "Full-Stack Developer", typing, and the element shows "F". |
| Typing.TypingEffect.Type | script.js:268-291 | One `type()` step performs the reference transition, and the element's text is the prefix of the current phrase of length `charIndex`. |
| Slider.NextIndex | script.js:503 | `(i + 1) % n` stays in `[0, n)` and wraps from the last slide to 0. |
| Slider.PrevIndex | script.js:508 | `(i - 1 + n) % n` stays in `[0, n)` and wraps from 0 to the last slide. |
| Slider.PrevUndoesNext | script.js:502-510 | `prev` after `next` restores the index, and so does `next` after `prev`. |
| Slider.Forward | script.js:502-519 | Any number of `next` presses or autoplay ticks keeps the index in range. |
| Slider.ForwardWithin | script.js:503 | Short of the end, k presses of `next` advance k places. |
| Slider.ForwardAdditive | script.js:503 | a presses followed by b presses equal a + b presses. |
| Slider.FullTurn | script.js:502-519 | `n` presses of `next` bring the slider back to where it was. |
| Slider.TestimonialsSlider.constructor | script.js:456-472 | `init` and `createDots` start at slide 0 with one dot per slide, only the first active. |
| Slider.TestimonialsSlider.UpdateSlider | script.js:494-500 | The track is shifted by `currentIndex * 100` percent, and exactly the dot at `currentIndex` is active. |
| Slider.TestimonialsSlider.Next | script.js:502-505 | The index advances cyclically and the view is updated. |
| Slider.TestimonialsSlider.Prev | script.js:507-510 | The index steps back cyclically and the view is updated. |
| Slider.TestimonialsSlider.GoToSlide | script.js:512-515 | Given a dot's index, that slide becomes current and only its dot is active. |
| Theme.Toggled | script.js:236 | The new theme is "light" iff the current one is "dark", and "dark" otherwise, including when none is set. |
| Theme.ToggleTwice | script.js:234-240 | Toggling twice from "dark" or "light" gives the original theme back. |
| Theme.ToggleAlternates | script.js:234-240 | After the first toggle the theme alternates with period two. |
| Theme.ThemeToggle.constructor | script.js:219-229 | A non-empty saved theme wins. Otherwise a dark system preference sets "dark". Otherwise the page attribute stays. Storage is not written. |
| Theme.ThemeToggle.ToggleTheme | script.js:234-240 | The attribute becomes the toggled theme, and the stored value equals it. |
| Selection.OnlyAt | script.js:349-350 | The flags after selection: set exactly at the chosen index. |
| Selection.OnlyAtCountsOne | script.js:349-350 | Exactly one element is active after a selection. |
| Selection.SelectOnly | script.js:349-350 | Clearing every flag and setting the chosen one leaves exactly the chosen element active. |
| Selection.Matching | script.js:353-360 | A pane is active iff its id equals the target. No pane is active when the tab has no target. |
| Selection.DistinctIdsMatchOnce | script.js:353-360 | With distinct pane ids and a target naming one of them, exactly that pane is active. |
| Selection.ActivateMatching | script.js:353-360 | After the pane loop, the active flags are exactly the panes matching the target. |
| Selection.Hidden | script.js:398-407 | A project is hidden iff the filter is not "all" and its category differs from the filter. With "all", none is hidden. |
| Selection.ProjectsFilter.constructor | script.js:379-381 | The filter holds its buttons and project cards. |
| Selection.ProjectsFilter.Filter | script.js:390-408 | Exactly the clicked button is active, and each project is hidden per `Hidden`. |
| Selection.SkillsTabs.constructor | script.js:334-336 | The tabs hold their buttons and content panes. |
| Selection.SkillsTabs.SwitchTab | script.js:345-361 | Exactly the clicked tab is active, and a pane is active iff its id equals the tab's `data-tab`. |
| Selection.ExperienceTabs.constructor | script.js:415-417 | The tabs hold their buttons and content panes. |
| Selection.ExperienceTabs.SwitchTab | script.js:426-440 | Exactly the clicked tab is active, and a pane is active iff its id equals the tab's `data-exp-tab`. |
| ClientForm.IsValidEmail | script.js:570-572 | `isValidEmail`: no white space, one `@` with something before it, and a `.` strictly inside the domain, so a valid address has at least five characters (its equivalence with the regex is EmailPatternMeaning). |
| ClientForm.PatternPasses | script.js:570-572 | A string the email regex matches passes the check. |
| ClientForm.PassesPattern | script.js:570-572 | A string that passes the check splits into the regex's three words. |
| ClientForm.EmailPatternMeaning | script.js:570-572 | `isValidEmail` accepts exactly the strings `^[^\s@]+@[^\s@]+\.[^\s@]+$` matches: no white space, one `@` with something before it, and a `.` inside the domain. |
| ClientForm.Trim | script.js:547 | `String.prototype.trim`: never longer than its input (TrimEmpty says when it is empty). |
| ClientForm.TrimEmpty | script.js:547 | `trim()` gives "" iff the value is all white space. |
| ClientForm.Check | script.js:543-561 | The verdict of `validateField`: a bad-email verdict only for an email input (the full meaning is CheckMeaning). |
| ClientForm.CheckMeaning | script.js:543-561 | `validateField` reports "required" iff the value is all white space. It reports a bad email iff the value is a non-blank email input the regex rejects. It passes otherwise. |
| ClientForm.ContactForm.constructor | script.js:526-540 | The form holds its required inputs and their groups' error state. |
| ClientForm.ContactForm.ValidateField | script.js:543-561 | The input passes iff its verdict is Passed. Its group is marked iff it failed, with the required or email text. No other input changes. |
| ClientForm.ContactForm.ClearError | script.js:563-568 | A non-blank value clears its group's mark, and a blank one leaves it. No other group changes. |
| ClientForm.ContactForm.HandleSubmit | script.js:574-587 | Every required input is validated with no short-circuit. Each group is marked iff its input failed. Submission proceeds iff all passed. |

## Left out

- `sendEmail`, `mail()` and the HTML body of `buildEmailBody` (contact.php:147-234) are foreign mail transport, server variables and dates. The result of `mail()` is the parameter `mailSent`, and the model records only whether mail was attempted.
- `logSubmission` (contact.php:239-259) is filesystem I/O and date formatting. Only the fact that the log is written on the success path is modelled (`Reply.logged`).
- `json_decode` and `php://input` are not modelled. The decoded JSON body is a given string map, and a body that does not decode is None. JSON values that are not strings (numbers, arrays) are not represented, and neither are form values that PHP parses into arrays (`name[]=x`, `website[]=x`): the form body is a map from names to strings.
- `strip_tags` and `filter_var(FILTER_VALIDATE_EMAIL)` are library code. They are function parameters with no assumed behaviour.
- md5 is taken to be injective: two addresses never share a rate file.
- The read-then-write race between simultaneous requests on the rate file is concurrency. Requests are taken one at a time.
- `time()` is the parameter `now`.
- HTTP headers, `http_response_code`, `echo` and `exit` are output plumbing. A status and payload value is returned instead.
- Invalid UTF-8 input, for which `htmlspecialchars` returns "", is not modelled: strings are sequences of Unicode scalar values.
- The DOM, `setTimeout`/`setInterval` scheduling and touch swipes are not modelled. Delays are returned values, autoplay is repeated `next` presses, and swipes are calls of `next`/`prev`.
- `SkillsTabs.reAnimateSkillBars` and the project cards' `fadeIn` animation style are presentation timing and are not modelled.
- The asynchronous part of `handleSubmit` after validation (loading state, the simulated submission, the status message, the form reset) is not modelled.
- Typing.TypingEffect.constructor: the 100 ms delay asked for by the first `type()` call in `init` goes to `setTimeout` and is not returned.
- Each required input of the contact form is taken to have its own `.form-group` (`field.closest`, script.js:544), so its error flag and text are its own. If two inputs shared a group, a later passing input in `handleSubmit` would clear the mark of an earlier failing one; that sharing is not modelled.
- The early returns of each `init` when its elements are missing are not modelled: every widget is built with its elements present.
- Typing.Advance: requires every phrase to be non-empty. With an empty phrase, `type()` would step `charIndex` past the end and never turn to deleting. The five phrases `init` installs are all non-empty.
