# Waitlist landing page: submission flow and chat preview

A Dafny model of the two pieces of the "ogadda" landing page that make decisions:

- **The waitlist popup** (`EmailPopup`). It checks the typed email against the regular expression `^[a-zA-Z0-9._%+-]+@[a-zA-Z0-9.-]+\.[a-zA-Z]{2,}$`. It then POSTs the email to three equivalent spreadsheet endpoints, in order, and stops at the first response with status below 400. Along the way it updates `email`, `emailError`, `isLoading` and `isSubmitted`, and on success it sets the session flag `emailSubmitted`.
- **The chat preview** (`ChatPreview`). Each tick of its interval posts the next of five canned messages. It keeps only the three most recent on screen and moves its index on modulo 5.

Modules:

- `Wrappers`: the `Option` datatype.
- `EmailShape`: the regular expression. `MatchesPattern` is what the regex accepts, written as the split of the string into local part, `@`, domain, `.` and top-level part. `IsValidEmail` is a run-time test that looks at the first `@` and the last `.` after it. `ValidEmailIffPattern` proves the two agree on every string.
- `Waitlist`: the endpoint loop `TryEndpoints`, a `while` loop with an early `break`, proved against the first-success function `FirstSuccess`. Also the `EmailPopup` class. Each handler's new state is tied to a pure transition function on the `Popup` datatype (`ChangeSpec`, `BeginSpec`, `FinishSpec`, `SubmitSpec`, `ClickSpec`), and the lemmas are proved about those functions.
- `Chat`: the window update `Push`, i.e. `[...prev.slice(-2), m]`, and the `ChatPreview` class. A ghost `history` records every posted message. `Valid()` ties the screen to the last three entries of `history`, and ties `history` to a rotation through the five entries.

The network is an input. `outcomes[n]` is what a POST to endpoint `n` produces: `Status(code)` or `Thrown`. Each POST the popup makes is appended to the `sent` log as `Request(url, email)`. The clock of the chat is the `now` parameter of `Tick`.

`handleSubmit` is `async`, so the model splits it at its awaits:

- `BeginSubmit` covers validation and `setIsLoading(true)`.
- `FinishSubmit(submitted, outcomes)` covers the endpoint loop and the result. `submitted` is the email captured when the handler started.
- `Submit` runs both.

With this split, the button's `onClick` can arrive while `isLoading` is true, as in the component.

Two points about the code that the model keeps:

- Validation sets two different messages: one for an empty field (line 408) and one for a malformed email (line 412).
- Only the button path guards against a second submission while loading, through `disabled={isLoading}` (line 658) and `if (isLoading) return` (line 665). The form's `onSubmit` (line 602) calls `handleSubmit` with no guard, and so does the model's `Submit`.

## Model

| member | source | states |
|---|---|---|
| `EmailShape.ValidEmailIffPattern` | app/components/CollegeChatLanding.tsx:406 | the run-time test accepts a string exactly when the regex matches it, in both directions |
| `EmailShape.PatternForcesShape` | app/components/CollegeChatLanding.tsx:406 | any regex match puts its `@` at the first `@` and its escaped `.` at the last `.` of the domain, so the match is unique and the test accepts it |
| `EmailShape.ValidEmailHasOneAt` | app/components/CollegeChatLanding.tsx:406 | an accepted email holds exactly one `@` |
| `EmailShape.EmptyIsNotValid` | app/components/CollegeChatLanding.tsx:406-411 | the empty string fails the regex, so the empty-field check only chooses the message |
| `EmailShape.NoAtIsNotValid` | app/components/CollegeChatLanding.tsx:406 | a string without `@` never matches |
| `EmailShape.Examples` | app/components/CollegeChatLanding.tsx:406 | `student@college.edu` matches, `not-an-email` does not, and `a@-.co` matches (the domain may be only dots and hyphens) |
| `Waitlist.FirstSuccess` | app/components/CollegeChatLanding.tsx:430-485 | the returned index is a status below 400 that every earlier endpoint lacks; None means no endpoint succeeds |
| `Waitlist.TryEndpoints` | app/components/CollegeChatLanding.tsx:426-485 | the loop succeeds exactly when some endpoint does; it POSTs the email to `urls[0..]` in list order, once per failure before the first success plus that success; `lastError` is the failure of the last endpoint that failed |
| `Waitlist.AttemptsAreFirstSuccessPlusOne` | app/components/CollegeChatLanding.tsx:430-476 | if endpoint k is the first success, the pass makes k+1 attempts and `lastError` is endpoint k-1's failure, or null when k = 0 |
| `Waitlist.EndpointScenarios` | app/components/CollegeChatLanding.tsx:420-485 | 200 on the first endpoint gives one attempt; 500, 500, 201 succeeds on the third; 500 throughout fails; `lastError` tracks the third endpoint |
| `Waitlist.BeginPreservesValid` | app/components/CollegeChatLanding.tsx:398-416 | validation and the start of loading keep the invariant |
| `Waitlist.ClickPreservesValid` | app/components/CollegeChatLanding.tsx:661-682 | a button click keeps the invariant, whether it is ignored or submits |
| `Waitlist.ValidationError` | app/components/CollegeChatLanding.tsx:403-414 | validation lets the email through exactly when it is well-shaped |
| `Waitlist.EmptyEmailRejected` | app/components/CollegeChatLanding.tsx:403-410 | an empty field sets "Please enter your email"; nothing is POSTed, `isLoading` is untouched, nothing else changes |
| `Waitlist.MalformedEmailRejected` | app/components/CollegeChatLanding.tsx:406-414 | a non-empty email outside the pattern sets "Please enter a valid email address", and nothing else changes |
| `Waitlist.SubmitSucceeds` | app/components/CollegeChatLanding.tsx:416-495 | when endpoint k is the first success, the email goes to endpoints 0..k in order; then `isSubmitted` is true, the field is cleared, the session flag is set, loading is off and the error is empty |
| `Waitlist.SubmitAllFail` | app/components/CollegeChatLanding.tsx:477-501 | when every endpoint fails, all three are POSTed in order, "Failed to join waitlist. Please try again." is shown, `email`, `isSubmitted` and the session flag are unchanged, loading is off, and `lastError` is the third endpoint's failure |
| `Waitlist.SubmitEndsLoading` | app/components/CollegeChatLanding.tsx:416-498 | after any submission that passed validation, `isLoading` is false |
| `Waitlist.ClickWhileLoadingIgnored` | app/components/CollegeChatLanding.tsx:661-665 | a button click while `isLoading` changes no state and POSTs nothing |
| `Waitlist.ChangeClearsError` | app/components/CollegeChatLanding.tsx:618-621 | typing sets `email` to the new value and clears `emailError`, and POSTs nothing |
| `Waitlist.InitialValid` | app/components/CollegeChatLanding.tsx:359-362 | the initial popup satisfies the invariant |
| `Waitlist.ChangePreservesValid` | app/components/CollegeChatLanding.tsx:618-621 | typing keeps the invariant: every POST carried a well-shaped email, and the confirmation view implies the session flag |
| `Waitlist.FinishPreservesValid` | app/components/CollegeChatLanding.tsx:426-501 | the endpoint pass for a validated email keeps the invariant |
| `Waitlist.SubmitPreservesValid` | app/components/CollegeChatLanding.tsx:398-502 | a whole submission keeps the invariant, so no POST ever carries an email the regex rejects |
| `Waitlist.EmailPopup.constructor` | app/components/CollegeChatLanding.tsx:359-362 | empty field, no error, not loading, not submitted, nothing sent |
| `Waitlist.EmailPopup.OnChange` | app/components/CollegeChatLanding.tsx:618-621 | the new state is `ChangeSpec` of the old one |
| `Waitlist.EmailPopup.BeginSubmit` | app/components/CollegeChatLanding.tsx:398-416 | returns whether the email matches the regex; the new state is `BeginSpec` of the old one (error reset or set, loading started) |
| `Waitlist.EmailPopup.FinishSubmit` | app/components/CollegeChatLanding.tsx:419-501 | the new state is `FinishSpec` of the old one, and the returned `lastError` is `LastFailure(outcomes)` |
| `Waitlist.EmailPopup.Submit` | app/components/CollegeChatLanding.tsx:398-502 | the new state is `SubmitSpec` of the old one |
| `Waitlist.EmailPopup.Click` | app/components/CollegeChatLanding.tsx:661-682 | the new state is `ClickSpec` of the old one: unchanged while loading, otherwise a submission |
| `Waitlist.PendingPassSends` | app/components/CollegeChatLanding.tsx:426-495 | with responses 500 then 201, the pass POSTs to the first two endpoints only and ends in the confirmation: field cleared, session flag set, loading off |
| `Waitlist.ClickDuringSubmission` | app/components/CollegeChatLanding.tsx:398-416 | after typing a well-shaped email and starting a submission, a click while loading leaves the state unchanged; the pending pass with responses 500, 201 then POSTs to the first two endpoints only and ends in the confirmation with the field cleared and loading off |
| `Chat.PushBounded` | app/components/CollegeChatLanding.tsx:218 | the updated list has at most three messages, the new one last, preceded by the previous list's last one or two in their order |
| `Chat.PushIsLastThree` | app/components/CollegeChatLanding.tsx:218 | pushing onto the last three of a history gives the last three of the history extended by the new message |
| `Chat.RotationStep` | app/components/CollegeChatLanding.tsx:213-219 | posting `collegeMessages[currentIndex]` keeps message n of the history equal to entry n mod 5 |
| `Chat.TickPreservesShows` | app/components/CollegeChatLanding.tsx:211-220 | a tick keeps the invariant: the index is in [0, 5) and counts posted messages mod 5, the screen is the last three posted, and posting rotates through the entries |
| `Chat.ChatPreview.constructor` | app/components/CollegeChatLanding.tsx:175-209 | no messages, index 0, the five entries of `collegeMessages` |
| `Chat.ChatPreview.Tick` | app/components/CollegeChatLanding.tsx:211-220 | keeps `Valid()`; the new list is `Push` of the old one with the current entry stamped `now`; the index becomes (old + 1) mod 5 |

## Left out

- The real `fetch`, the JSON body with its duplicated `Email`/`email` and `Date`/`date` fields, `source` and `timestamp` (lines 437-454), and the reading and parsing of the response text (459-471). That code only logs. Each endpoint's result is an abstract `Response`.
- `console.*` calls, `Date`/`toISOString`, and `window.location.hostname`.
- `sessionStorage` is only the boolean `sessionSubmitted`, false when the popup is created. Nothing reads it back.
- Interleaving inside the endpoint loop. The model lets other events happen between `BeginSubmit` and `FinishSubmit`, but not between two endpoints of a single pass.
- A response that arrives after the popup was unmounted is not modelled. The model has no component lifetime.
- The browser's own constraint validation of `<input type="email" required>` on the form-submit path is not modelled, because it belongs to the browser. The button is `type="button"`, so a click skips it in any case.
- The button handler repeats the validation (lines 670-678) before calling `handleSubmit`. The repeat has the same effect as `handleSubmit`'s own check, so `Click` models that check once.
- The popup's rendering rules are not requirements of the handlers. For example, the input exists only while `isSubmitted` is false. The model lets `OnChange`, `Submit` and `Click` run in any state.
- Closing the popup is left out: `closeModal`, `handleBackClick`, the global `window.closeWaitlistModal` (352-379), and the deferred `setIsSubmitted(false)` on close (370-372, 712-714). These are timer-driven UI effects outside the submission state.
- The chat's `setInterval`, its 3000 ms period, and the effect re-registering whenever `currentIndex` changes. `Tick` is one firing.
- The chat's `Date.now()` is the `now` parameter, and React's `key` by timestamp is not modelled.
- `Chat.ChatPreview.Tick` writes the modulus as 5 rather than `|entries|`. `Valid()` fixes `|entries|` at 5, so the two are equal.
- The 3D background (`FloatingOrbs`, `AnimatedGradient`, the shaders), the `FeatureCard` tilt maths, framer-motion variants, random particle layouts and hover effects. These are floating-point rendering with no state to verify.
- app/components/EmailPopupSuccess.tsx is not part of this model. It is a close button that tries a DOM fallback chain.
- app/layout.tsx is not part of this model. It only loads fonts and sets metadata.
- app/components/LandingPageWrapper.tsx is not part of this model. It is a dynamic-import wrapper.
