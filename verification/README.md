# Landing-page interaction state machines, in Dafny

This project models the client-side interaction logic of a pre-registration
landing page. The logic is written as immutable state records and pure
transition functions. Server replies and timer firings come in as input
values.

- **EmailPattern** (`email_pattern.dfy`) models the unanchored ECMAScript
  pattern `\S+@\S+\.\S+`. The meaning of a match is an existential over the
  indices that bound its three `\S+` runs. A one-pass scanner decides it and
  is proved equal to that meaning. `\s` is ECMAScript's white-space class,
  listed code point by code point.
- **Registration** (`registration.dfy`) models the `LoginPage` component:
  - the three fields and the errors map;
  - `validate` and `handleChange`;
  - `handleSubmit`, split into its synchronous half (`HandleSubmit`) and its
    reply half (`ReceiveResponse`);
  - the request body, the confirmation-view condition, and a dispatcher
    that delivers edits, submits and replies. It drops edits and submits
    while the inputs and button are disabled or the confirmation view is
    shown. A `Submit` event stands for a submit that reached `handleSubmit`.
- **Counter** (`counter.dfy`) models `fetchUserCount` over
  `{count, isLoadingCount}`.
- **Typewriter** (`typewriter.dfy`) models the headline animation. One
  `Step` is one run of its effect. It returns the next state and the delay
  before that state takes effect: 150, 100 or 1000 ms, or 0 when the effect
  sets `isPaused` synchronously.
- **HomePage** (`home_page.dfy`) models the page around them: the refresh on
  mount, and `handleSuccessfulRegistration` wired into the form.
- **Wrappers** (`wrappers.dfy`) holds `Option`, used for absent JSON members
  and for null state.

Behaviour worth knowing:

- **Submit guard.** `handleSubmit` itself does not refuse a second submit.
  The disabled inputs and button (LoginPage.js:141, 160, 178, 185) prevent
  one while `submissionStatus` is `submitting`. `Registration.Dispatch`
  models that gate.
- **Pause timing.** At the end of a typing or deleting phase the effect sets
  `isPaused` at once (delay 0). The 1000 ms timer then ends the pause.
- **Period.** "COMING SOON" has 11 characters, so a full cycle is 26 effect
  runs and 11·150 + 1000 + 11·100 + 1000 = 4750 ms
  (`Typewriter.DefaultPeriod`).
- **Count value.** The count shown is whatever the server's `count` member
  holds. It is modelled as any integer.
- **Backend rejections.** A registration the serializer rejects is answered
  with the serializer's errors (backend/registration/views.py:16). The
  serializer is not part of this model. If those errors carry neither
  `detail` nor `message`, the form shows "An unknown error occurred.". A
  reply whose body is not JSON, such as a server error, ends in the
  transport-failure message instead (LoginPage.js:61, 77-79).

## Model

| member | source | states |
|---|---|---|
| EmailPattern.Scan | frontend/components/LoginPage.js:25 | From any scan position whose state invariant holds, the scan answers true exactly when `\S+@\S+\.\S+` occurs somewhere in the string |
| EmailPattern.MatchesEmailPattern | frontend/components/LoginPage.js:25 | The regex test used by `validate` is true exactly when some substring is a space-free run, '@', a space-free run, '.', a space-free run |
| EmailPattern.Samples | frontend/components/LoginPage.js:25 | "you@example.com" and a string holding "a@b.c" among spaces match; "", "a@b" (no dot), "a @b.c" (space before '@'), "a@b. c" (space after '.') and "@b.c" (nothing before '@') do not |
| Registration.WithField | frontend/components/LoginPage.js:34 | Writing a field sets that field to the new value and leaves the other two as they were |
| Registration.Validate | frontend/components/LoginPage.js:21-30 | Empty email gives exactly {email: "Email ID is required."}; a non-empty non-matching email gives exactly {email: "Email ID is invalid."}; the result is true iff the new errors map is empty, iff the email is non-empty and matches; Discord ID and referral source never get an error |
| Registration.OnlyEmailIsValidated | frontend/components/LoginPage.js:21-30 | Changing the Discord ID or referral source never changes the outcome of validation |
| Registration.HandleChange | frontend/components/LoginPage.js:32-38 | Only the named field changes, to the new value; that field's error is removed and every other error is kept as it was; status, message and registration are untouched; nothing is re-validated |
| Registration.EditDoesNotRevalidate | frontend/components/LoginPage.js:32-38 | Typing an invalid email leaves no error showing although validation would reject it |
| Registration.RequestBody | frontend/components/LoginPage.js:54-58 | The posted body has exactly the keys email, discord_id, referral_source in that order; email passes through, discordId and referralSource appear under the snake-case names; reading the body back gives the form |
| Registration.HandleSubmit | frontend/components/LoginPage.js:40-59 | A request is posted iff the email is non-empty and matches; errors are recomputed wholesale; on failure nothing but the errors changes, so status and message stay; on success the status is submitting, the message empty, and the body carries the snapshot |
| Registration.ReceiveResponse | frontend/components/LoginPage.js:61-81 | Ok: status success, message is the server's non-empty message or "Registration successful! Welcome aboard.", the snapshot is recorded, form reset to all-empty, errors cleared, and the callback fires when the host supplied one. Not ok: status error, message is detail, else message, else "An unknown error occurred.". Transport failure: status error with the fixed connectivity message. On both errors every field, error and registration record is kept |
| Registration.Dispatch | frontend/components/LoginPage.js:86-198 | For edits, submits that reach `handleSubmit`, and replies: preserves the component invariant; while submitting, edits and submits change nothing; once the confirmation view shows, every event changes nothing; a request goes out iff an enabled form is submitted with an email that passes `validate`; the callback fires iff an Ok reply answers a pending submission |
| Registration.ShowsConfirmation | frontend/components/LoginPage.js:86 | In every reachable state the confirmation view shows exactly when the user is registered, and then the status is success, the form is empty and no submission is pending |
| Registration.FormEnabled | frontend/components/LoginPage.js:141-185 | In every reachable state the form accepts input exactly when no submission is pending and the user is not registered |
| Registration.OrElse | frontend/components/LoginPage.js:65-75 | JavaScript's logical-or fallback on a string that may be absent: a present non-empty string wins, and an absent or empty one gives the fallback |
| Registration.InitialIsValid | frontend/components/LoginPage.js:10-19 | The mount state satisfies the component invariant and shows an enabled form |
| Registration.Run | frontend/components/LoginPage.js:63-72 | Over any sequence of events the success callback fires at most once: exactly once if the run registers, never after registration |
| Typewriter.Prefix | frontend/pages/index.js:64-73 | `substring(0, n)`: the word's first n characters when n is within its length, otherwise the whole word |
| Counter.BeginFetch | frontend/pages/index.js:12 | A refresh starts loading and keeps the count shown |
| Counter.EndFetch | frontend/pages/index.js:13-26 | Loading always ends; the count becomes the server's count on an ok reply and 0 on a non-ok reply or a transport failure |
| Counter.FetchUserCount | frontend/pages/index.js:11-27 | A whole refresh ends not loading, with the server's count or 0 |
| Counter.FetchForgetsPriorState | frontend/pages/index.js:11-27 | The refreshed state depends only on the reply, so a repeated refresh with the same reply is idempotent |
| HomePage.Mount | frontend/pages/index.js:29-31 | Mounting sends exactly one count request and shows a loading zero next to the empty form |
| HomePage.HandleSuccessfulRegistration | frontend/pages/index.js:33-35 | The callback issues exactly one count request and starts loading |
| HomePage.Dispatch | frontend/pages/index.js:11-35 | A page event sends one count request iff it is an Ok reply to a pending registration, otherwise none; a count reply ends loading with the server's count or 0 and leaves the form alone |
| HomePage.Run | frontend/pages/index.js:11-35 | Any sequence of page events keeps the registration component's invariant |
| HomePage.RefreshOncePerRegistration | frontend/pages/index.js:33-35 | Over any event sequence, the count refreshes after mount are exactly one if the run registered and zero otherwise |
| HomePage.RegisteredStaysPut | frontend/components/LoginPage.js:86 | Once registered, the form state never changes again and no refresh is requested |
| HomePage.AtMostTwoFetches | frontend/pages/index.js:29-35 | A whole session from mount requests the count at most twice |
| Typewriter.Step | frontend/pages/index.js:47-81 | Typing below the word length: after 150 ms, charIndex+1 and the text is the word's prefix of that length. Deleting above 0: after 100 ms, charIndex−1 and the shorter prefix. At the end of a phase: pause at once, text untouched. A pause ends after 1000 ms, and after typing it switches to deleting; after deleting, charIndex 0 and the next word modulo the list length. Every step changes the state and preserves the invariant |
| Typewriter.InitialSatisfiesInv | frontend/pages/index.js:37-41 | The mount state (word 0, charIndex 0, text '') satisfies the invariant: indices in range and text equal to the current word's prefix of length charIndex |
| Typewriter.Run | frontend/pages/index.js:47-81 | The invariant holds after any number of effect runs |
| Typewriter.TypingPhase | frontend/pages/index.js:70-75 | Typing k characters takes k·150 ms and shows the prefix k characters longer |
| Typewriter.DeletingPhase | frontend/pages/index.js:61-66 | Deleting k characters takes k·100 ms and shows the prefix k characters shorter |
| Typewriter.PauseThenResume | frontend/pages/index.js:50-69 | At the end of a phase, two effect runs take exactly 1000 ms: the immediate pause, then its end |
| Typewriter.WordCycle | frontend/pages/index.js:47-81 | From the start of word i, 2·len+4 effect runs taking len·150 + 1000 + len·100 + 1000 ms reach the start of word i+1 modulo the list length |
| Typewriter.CycleFrom | frontend/pages/index.js:47-81 | From the start of word j, the rest of the list cycles back to the start of word 0 in the summed steps and time |
| Typewriter.Periodic | frontend/pages/index.js:47-81 | For every non-empty word list, one pass over the list returns the animation exactly to its mount state |
| Typewriter.DefaultPeriod | frontend/pages/index.js:4-45 | With ["COMING SOON"] and the page's speeds, 26 effect runs take 4750 ms and return to the mount state |

## Left out

- Network I/O is not modelled: `fetch`, JSON parsing and the base-URL resolution from the environment (LoginPage.js:6, index.js:5). A reply is an input value. A body that is not JSON is folded into the transport failure, because the same `catch` handles both.
- `console.error` logging is diagnostics only and has no state effect.
- Non-string JSON values are not modelled. A `detail` or `message` that is a number, an object or an array is absent from the model. A missing or non-integer `count` is not modelled either.
- Real timers and the `clearTimeout` cleanup of the animation effect are not modelled. A step returns its delay. Unmounting, and so the cancellation of the pending timer, is outside the model.
- React rendering, batching of state updates and effect scheduling are not modelled. `Typewriter.Step` proves that every step changes some dependency of the effect, which is what lets each effect run be treated as one step.
- JSX markup and styling are left out, including the success and error banners (LoginPage.js:91, 200) and the '---' placeholder while loading. Of the markup, only the confirmation-view condition and the disabled inputs are modelled.
- Registration.Dispatch: a `Submit` event is a submit event that reached `handleSubmit`. The browser's own check of the `type="email"` input (LoginPage.js:127, 133) is not modelled: it cancels a submit whose value is not a valid e-mail address. The browser's clean-up of that value is not modelled either: it strips leading and trailing white space and newlines. So "a b@c.d" is posted here though a browser would block it, and "   " is reported invalid here where a browser would hand over "" and get "Email ID is required.".
- Overlapping count refreshes are not matched to their requests. Count replies are applied in the order they arrive. The first reply of two overlapping refreshes ends loading even though the second request is still pending.
- Unmounting the form with a registration in flight is not modelled.
- String lengths are not UTF-16 code units. Strings are sequences of Unicode characters, so a character outside the Basic Multilingual Plane counts once, where JavaScript counts it twice. The default word is ASCII.
- The backend views, the Django model, the admin registration, the page shell and the theme configuration are not part of this model.
- Typewriter.Step: its contract does not describe a deleting step whose charIndex is beyond the word's length. No state satisfying the invariant has one. The body clamps such an index like `substring` does.
