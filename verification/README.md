# ResQ AI dispatch demo — a Dafny model of its decision logic

ResQ AI is a browser demo of an emergency-dispatch service. Citizens describe
an incident, and a keyword classifier picks the services to send and a
severity, then drafts a dispatch message. Reports move through a fixed
six-step lifecycle that a status stepper draws. An administrator filters the
report list, reads counters, and sets any report's status. A session is kept
in local storage, and the interface text has English and Tamil versions.

This project models those decision procedures as pure Dafny functions over
immutable datatypes, and proves what each one promises:

| file | module | source |
|---|---|---|
| `base.dfy` | `Base` | `Option` (null/undefined) and the local-storage map |
| `text.dfy` | `Text` | ASCII case mapping, `includes`, number rendering, `split('@')[0]` |
| `types.dfy` | `Types` | `src/lib/types.ts` |
| `classifier.dfy` | `Classifier` | `src/pages/ReportEmergency.tsx` |
| `stepper.dfy` | `Stepper` | `src/components/StatusStepper.tsx` |
| `admin.dfy` | `Admin` | `src/pages/AdminDashboard.tsx` |
| `time_ago.dfy` | `TimeAgo` | `getTimeAgo` in `src/components/EmergencyCard.tsx` |
| `session.dfy` | `Session` | `src/lib/auth-context.tsx` |
| `auth_form.dfy` | `AuthForm` | `src/pages/Auth.tsx` |
| `language.dfy` | `Language` | `src/lib/language-context.tsx` |

The environment is passed in as parameters:
- the clock reading and the elapsed milliseconds;
- the fresh user id, which the source draws from `crypto.randomUUID`;
- the local-storage map.

The stored session record is written in a JSON subset: an object holding the
fields `id`, `name`, `email` and `role`, in that order. Inside it, string
values escape `"` and `\`. The module both writes and reads this format, and
`Session.SerializeRoundTrip` proves that a stored user reads back unchanged.

Behaviours of the code worth stating plainly:
- A status change accepts any status, including earlier ones: the stepper
  requests whatever step is clicked (StatusStepper.tsx:34) and the dashboard
  stores it unchecked (AdminDashboard.tsx:52). `Stepper.AnyStatusCanBeRequested`
  and `Admin.UpdateIdempotent` state that.
- The submit button is enabled once the description has at least 10
  characters (ReportEmergency.tsx:170), but a dispatch message is written only
  when it has more than 10 (ReportEmergency.tsx:43). `Classifier.CanSubmit`
  states both.
- The victim clause of the dispatch message is left out for zero and for
  negative counts.
- With no victims, the dispatch message holds two spaces before "Dispatching".
  The model keeps that.

## Model

| member | source | states |
|---|---|---|
| Text.LowerChar | src/pages/ReportEmergency.tsx:29 | an ASCII capital becomes the small letter 32 code points above it, any other character is kept, and no capital is ever produced |
| Text.UpperChar | src/pages/ReportEmergency.tsx:44 | an ASCII small letter becomes the capital 32 code points below it, any other character is kept, and no small letter is ever produced |
| Text.ToLower | src/pages/ReportEmergency.tsx:29 | lower-casing keeps the length and lower-cases each character on its own, as LowerChar states |
| Text.ToLowerOfToUpper | src/pages/ReportEmergency.tsx:29 | for ASCII text: lower-casing an upper-cased text gives the lower-cased original, so a test made after toLowerCase cannot tell them apart |
| Text.Includes | src/pages/ReportEmergency.tsx:32 | `includes` is true exactly when the needle occurs at some position of the text |
| Text.IncludesAny | src/pages/ReportEmergency.tsx:32-34 | a chain of `includes` tests joined by "or" is true exactly when some keyword of the list occurs |
| Text.IntRoundTrip | src/components/EmergencyCard.tsx:61 | the decimal text of an integer (sign included) parses back to the same integer |
| Text.BeforeFirst | src/lib/auth-context.tsx:30 | `split('@')[0]` is a prefix of the text without '@'; it is the whole text, or is followed by the first '@' |
| Types.StatusIndex | src/lib/types.ts:27-34 | every status has a position in the step list, and the step there carries that status |
| Types.StatusStepsShape | src/lib/types.ts:27-34 | six steps with pairwise distinct keys in lifecycle order; resolved is the last step and the only status at the last position |
| Types.KeysInjective | src/lib/types.ts:1-3 | distinct severities, services, statuses and roles have distinct string keys |
| Types.ServiceTitlesDistinct | src/lib/types.ts:36-40 | every service's SERVICE_INFO label (Police, Ambulance, Fire Dept) names that service and no other: reading the label back with ServiceOfTitle recovers the service |
| Types.SeverityTitlesDistinct | src/lib/types.ts:42-47 | every severity's SEVERITY_CONFIG label names that severity and no other: reading the label back with SeverityOfTitle recovers the severity |
| Classifier.DetectServices | src/pages/ReportEmergency.tsx:29-35 | fire, ambulance and police each appear exactly when one of their keywords occurs. The list is strictly ordered fire, ambulance, police. It is empty iff no keyword occurs and the description has at most 10 characters. Otherwise a keyword-free description yields exactly [police] |
| Classifier.ServicesCharacterised | src/pages/ReportEmergency.tsx:29-35 | any ordered list with the membership the keyword rules describe equals the computed list |
| Classifier.CrashCallsAmbulanceAndPolice | src/pages/ReportEmergency.tsx:33-34 | "accident" or "collision" always yields both ambulance and police |
| Classifier.Dedupe | src/pages/ReportEmergency.tsx:47 | spreading a Set keeps exactly the same members, with no duplicates, ordered by where each first occurs in the input |
| Classifier.DedupeOfDistinct | src/pages/ReportEmergency.tsx:47 | on a list without duplicates the Set round trip returns the list unchanged |
| Classifier.ClassifySeverity | src/pages/ReportEmergency.tsx:37-40 | five or more victims is always critical; medium needs a count other than 0 and below 3; no victims is never medium (the full ladder is SeverityLevels) |
| Classifier.SeverityLevels | src/pages/ReportEmergency.tsx:37-40 | first match wins. Critical iff a critical keyword or at least 5 victims. High iff not critical and (a high keyword or at least 3 victims). Low only with a low keyword or no victims. Medium iff 1–2 victims and no severity keyword |
| Classifier.ClassifierIgnoresCase | src/pages/ReportEmergency.tsx:29-40 | for ASCII text: upper-casing the description changes neither the services nor the severity, because every keyword test runs on the lower-cased text |
| Classifier.SeverityMonotoneInVictims | src/pages/ReportEmergency.tsx:37-40 | for a fixed description and non-negative counts, more victims never lower the severity |
| Classifier.NegativeVictimsBreakMonotonicity | src/pages/ReportEmergency.tsx:39-40 | the `victims === 0` rule makes -1 victims rank above 0 victims |
| Classifier.FiveVictimsExample | src/pages/ReportEmergency.tsx:37 | five victims with an empty description are critical |
| Classifier.CriticalKeywordExample | src/pages/ReportEmergency.tsx:37 | "Critical explosion at the mall" with no victims is critical |
| Classifier.DispatchLabelIsServiceTitle | src/pages/ReportEmergency.tsx:42 | the template's inline service labels coincide with the SERVICE_INFO labels |
| Classifier.Excerpt | src/pages/ReportEmergency.tsx:44 | `slice(0, 120)` is the prefix of length min(120, length) |
| Classifier.OrElse | src/pages/ReportEmergency.tsx:44 | the fallback idiom gives `s` unless `s` is empty, then the fallback |
| Classifier.DispatchMessage | src/pages/ReportEmergency.tsx:43-45 | the message is empty iff the description has at most 10 characters |
| Classifier.DispatchOpensWithAlert | src/pages/ReportEmergency.tsx:44 | a non-empty message starts with the upper-cased severity, " ALERT: ", the excerpt and "..." |
| Classifier.DispatchNamesLocation | src/pages/ReportEmergency.tsx:44 | a non-empty message contains "... Location: " followed by the location, or "Pending" if it is empty |
| Classifier.DispatchNamesServices | src/pages/ReportEmergency.tsx:42-44 | a non-empty message contains "Dispatching " followed by the service labels joined by " + " |
| Classifier.DispatchEndsWithContact | src/pages/ReportEmergency.tsx:44 | a non-empty message ends with ". Contact: " followed by the contact, or "N/A" if it is empty, and "." |
| Classifier.VictimClauseInsertion | src/pages/ReportEmergency.tsx:44 | the victim count affects only the clause "{n} victim(s) reported.", inserted after the location when n > 0 and absent otherwise |
| Classifier.VictimCountReadable | src/pages/ReportEmergency.tsx:44 | the count in the victim clause reads back as the same number |
| Classifier.Predict | src/pages/ReportEmergency.tsx:28-48 | the prediction's services, severity and message are the classifier's, and the Set dedupe changes nothing |
| Classifier.DecrementVictims | src/pages/ReportEmergency.tsx:155 | "-" never goes below 0 and otherwise subtracts one |
| Classifier.IncrementVictims | src/pages/ReportEmergency.tsx:157 | "+" never goes above 10 and otherwise adds one |
| Classifier.PressesStayInRange | src/pages/ReportEmergency.tsx:155-157 | from a count in [0, 10], no sequence of presses leaves [0, 10] |
| Classifier.CanSubmit | src/pages/ReportEmergency.tsx:170 | submit is enabled iff the description has at least 10 characters; at exactly 10 the dispatch message is empty whatever the location, victim count and contact |
| Classifier.Submit | src/pages/ReportEmergency.tsx:59-65 | the submitted id is "RSQ-" and the clock reading, and the prediction is recomputed from the submitted fields |
| Stepper.FindStep | src/components/StatusStepper.tsx:16 | `findIndex` gives the first position holding the status, or -1 iff none does |
| Stepper.CurrentIndexFound | src/components/StatusStepper.tsx:16 | every status is found, at its lifecycle position |
| Stepper.ViewStep | src/components/StatusStepper.tsx:22-24 | a step shows its own status; a current step is also completed; a connector is drawn iff the stepper is vertical and the step is not the last; a filled connector belongs to a completed step that is not the current one |
| Stepper.Render | src/components/StatusStepper.tsx:20-24 | one view per step, in step order |
| Stepper.CompletedIsPrefix | src/components/StatusStepper.tsx:22 | a step is completed iff it does not come after the current status; completed steps form a prefix that ends at the current step |
| Stepper.ExactlyOneCurrent | src/components/StatusStepper.tsx:22-23 | exactly one step is current, the one with the report's status, and it is completed |
| Stepper.Connectors | src/components/StatusStepper.tsx:54-58 | in the vertical layout the connector under step i is filled iff i < current index; the last step and the horizontal layout draw none |
| Stepper.NotFoundShowsNothing | src/components/StatusStepper.tsx:16-23 | with index -1 no step is completed or current |
| Stepper.Click | src/components/StatusStepper.tsx:34 | a click requests the step's own status iff the stepper is interactive and has a callback |
| Stepper.AnyStatusCanBeRequested | src/components/StatusStepper.tsx:34 | there is no direction check, so from any status every status, earlier ones included, can be requested |
| Admin.Filter | src/pages/AdminDashboard.tsx:37-42 | a report is kept iff it is in the list and passes every active criterion, and every passing report is kept as many times as it occurs in the list (multiset count), while a failing one is dropped |
| Admin.FilterIsSubsequence | src/pages/AdminDashboard.tsx:37 | the kept reports keep their order (a subsequence of the list) |
| Admin.FilterCriteria | src/pages/AdminDashboard.tsx:38-40 | kept reports include the chosen department and have exactly the chosen severity. With a non-empty query, their id or description contains it case-insensitively |
| Admin.FilterNothingActive | src/pages/AdminDashboard.tsx:37-42 | with both filters on "all" and an empty query, the whole list is shown |
| Admin.CountActive | src/pages/AdminDashboard.tsx:45 | at most the number of reports, and zero iff every report is resolved |
| Admin.CountCritical | src/pages/AdminDashboard.tsx:46 | at most the number of reports, and zero iff no report is critical |
| Admin.CountResolved | src/pages/AdminDashboard.tsx:47 | at most the number of reports, and zero iff no report is resolved |
| Admin.ActivePlusResolved | src/pages/AdminDashboard.tsx:45-47 | active count plus resolved count is the number of reports |
| Admin.ComputeStats | src/pages/AdminDashboard.tsx:44-47 | one pass yields the active, critical and resolved counts; active + resolved = total |
| Admin.UpdateStatus | src/pages/AdminDashboard.tsx:52 | length and order are kept. Matching reports get the new status and keep every other field. Other reports are unchanged |
| Admin.UpdateIdempotent | src/pages/AdminDashboard.tsx:52 | the last update wins over an earlier one, so repeating an update changes nothing more |
| Admin.HandleStatusUpdate | src/pages/AdminDashboard.tsx:51-53 | the list keeps its length; each report with the id gets the new status and nothing else changes; the others are unchanged; the open report is updated iff its id matches, and an open sheet stays open |
| Admin.UpdateSelected | src/pages/AdminDashboard.tsx:53 | the open report changes only if its id matches; none stays none |
| Admin.UpdateKeepsSelectionInList | src/pages/AdminDashboard.tsx:51-53 | if the open report is an entry of the list, it still is one after an update |
| TimeAgo.Bucket | src/components/EmergencyCard.tsx:59-64 | a number difference never gives NaN; minutes iff the difference is under an hour; days iff it is at least a day |
| TimeAgo.TimeAgo | src/components/EmergencyCard.tsx:58-65 | an unparsable timestamp (NaN) gives the NaN case, and only then |
| TimeAgo.MinutesBand | src/components/EmergencyCard.tsx:60-61 | under an hour it gives whole minutes rounded down, negative for a future timestamp |
| TimeAgo.HoursBand | src/components/EmergencyCard.tsx:62-63 | from one hour up to a day it gives whole hours, between 1 and 23 |
| TimeAgo.DaysBand | src/components/EmergencyCard.tsx:64 | from a day on it gives whole days, at least 1; flooring hours then days equals flooring by a day |
| TimeAgo.Label | src/components/EmergencyCard.tsx:61-64 | the label ends with "m ago", "h ago" or "d ago" by band, and NaN ends in "d ago" |
| TimeAgo.LabelRoundTrip | src/components/EmergencyCard.tsx:61-64 | each label reads back as its band and count, so labels are distinct |
| Session.Serialize | src/lib/auth-context.tsx:35 | the stored text is a braced object; SerializeRoundTrip proves it reads back as the user |
| Session.Parse | src/lib/auth-context.tsx:23 | JSON null iff the text is "null"; a parsed user is exactly what the record reader reads |
| Session.SerializeRoundTrip | src/lib/auth-context.tsx:35 | the stored record of a user reads back as that user |
| Session.Restore | src/lib/auth-context.tsx:20-25 | a missing, empty, "null" or unparsable entry starts logged out; a stored record restores its user |
| Session.LoginName | src/lib/auth-context.tsx:30 | an admin is named 'Commander Admin'. A citizen is named by the email up to its first '@', or the whole email if it has none |
| Session.LoginNameOfAddress | src/lib/auth-context.tsx:30 | for `local@domain` a citizen is named `local` |
| Session.SignIn | src/lib/auth-context.tsx:34-35 | the user is in memory and storage agrees with memory. Other storage entries are untouched |
| Session.Login | src/lib/auth-context.tsx:27-37 | login always succeeds. The user has the fresh id and the given email and role. The persisted session restores to the in-memory user |
| Session.LoginIgnoresPassword | src/lib/auth-context.tsx:27 | the password plays no part |
| Session.Signup | src/lib/auth-context.tsx:39-44 | signup always succeeds with a citizen of the given name and email, persisted |
| Session.Logout | src/lib/auth-context.tsx:46-49 | the user is cleared and the stored entry removed; other entries untouched |
| Session.ReloadKeepsSession | src/lib/auth-context.tsx:20-49 | after a login, or after a logout, restoring from storage gives the same session |
| AuthForm.Submit | src/pages/Auth.tsx:26-42 | it errors iff the email or password is empty, or the name is empty in signup mode; an error calls nothing and keeps the session. Signup goes to /home with a citizen. Login goes to /admin iff the role is admin, else /home |
| AuthForm.LoginIgnoresName | src/pages/Auth.tsx:32-40 | in login mode the name is never checked |
| AuthForm.SelectRole | src/pages/Auth.tsx:78 | choosing a role always resets the mode to login and changes nothing else |
| AuthForm.ChooseMode | src/pages/Auth.tsx:167-181 | only a citizen can switch between login and signup |
| AuthForm.AdminNeverSignsUp | src/pages/Auth.tsx:167-181 | after any sequence of actions from the initial page, an admin is in login mode |
| AuthForm.DemoCitizen | src/pages/Auth.tsx:145-149 | the demo citizen button logs in "citizen" and goes to /home |
| AuthForm.DemoAdmin | src/pages/Auth.tsx:157-161 | the demo admin button logs in 'Commander Admin' and goes to /admin |
| Language.Translate | src/lib/language-context.tsx:78-80 | an unknown key returns the key; a non-empty entry for the current language is returned as is |
| Language.TableComplete | src/lib/language-context.tsx:12-56 | every entry has non-empty English and Tamil text |
| Language.KnownKeysTranslate | src/lib/language-context.tsx:79 | under en or ta a known key never falls back to itself |
| Language.UnknownLanguageFallsBack | src/lib/language-context.tsx:67-79 | the stored language is not validated: a code other than en or ta makes every lookup return the key (codes naming inherited JavaScript properties excepted, see Left out) |
| Language.InitialLanguage | src/lib/language-context.tsx:67-70 | the start-up language is the stored value, or "en" when there is none |
| Language.SetLanguage | src/lib/language-context.tsx:72-74 | the current language becomes the argument and is persisted so a reload restores it; other entries are untouched |

## Left out

- Rendering, animation, toasts, routing mechanics and the 2500 ms "analyzing" timer are side effects with no logic to state. Navigation appears only as the route a decision picks.
- `LiveMap.tsx` is left out: its floating-point curve generation and animation loop run over a map library that is not part of this model.
- Presentation-only pages and components are left out. These are Landing, Navbar, CitizenDashboard, TrackingPage, SubmissionSuccess, AIPreviewPanel, UIHelpers and App.
- `src/lib/demo-data` is not part of this model, so nothing is assumed about the seeded reports or the demo presets.
- Text.ToLower: lower-cases ASCII letters only. JavaScript's full Unicode case mapping can change a string's length, and is not modelled.
- Lengths are counted in characters (code points), not in UTF-16 code units.
- Text.ToLowerOfToUpper: holds for the ASCII case model only. Under JavaScript's Unicode mapping, upper-casing can change what lower-casing gives back (dotless ı becomes I, then i), and ß upper-cases to two letters.
- Classifier.ClassifierIgnoresCase: holds for ASCII text only. In JavaScript, upper-casing "fıre" gives "FIRE", which now matches "fire", and upper-casing six ß gives twelve S, which passes the more-than-10-characters police fallback.
- Session.Restore: `JSON.parse` accepts any JSON and keeps the result as the user without checking it. The model reads only the record format that the session writes. Other well-formed JSON, such as `{}`, is treated as unparsable (logged out) instead of as a malformed user.
- Session.SerializeRoundTrip: the encoder escapes only `"` and `\`. `JSON.stringify` also escapes control characters and lone surrogates; those escapes are not modelled.
- Language.Translate: a language code that names a property every JavaScript object inherits is not modelled (see the next line). Under en or ta, a key such as "constructor" finds no own entry and falls back to the key, as in the model.
- Language.UnknownLanguageFallsBack: a stored language code that names a property every JavaScript object inherits ("constructor", "toString", "__proto__") makes the lookup return that inherited function or object rather than the key; the model treats such a code like any other unknown code.
- Setting `document.documentElement.lang` on a language change and on every render (language-context.tsx:75, 82-84) is a DOM side effect with nothing to decide, and is left out.
- Victim counts and elapsed times are integers. Fractional JavaScript numbers, infinities and `-0` are not modelled, apart from the NaN of an unparsable timestamp.
- The demo buttons' toasts and the theme toggle on the dashboard are left out.
