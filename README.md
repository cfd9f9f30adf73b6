# Lead admin page and thank-you page, modelled in Dafny

This project models the logic of two pages of a real-estate landing site's
front end:

- the admin page "Landing Page Leads" (`src/pages/AdminProjectEnquiries.jsx`):
  the free-text search that decides which loaded leads are shown, the query
  string sent for a status tab, the badge colour for a status, and the page
  state that the fetch, status-update and delete handlers change (the loaded
  leads, the server's counters, the loading flag and the row whose action is
  in flight);
- the confirmation page (`src/pages/ThankYou.jsx`): the ten-second countdown
  that redirects to the project page, and the WhatsApp chat link built from
  the sales number.

Modules, one per concern:

- `Wrappers` (`wrappers.dfy`): `Option`, for fields that may be missing.
- `JsStrings` (`js_strings.dfy`): the JavaScript string built-ins the pages use:
  `toLowerCase` (ASCII letters), `includes` with its positional specification
  `Occurs`.
- `Sequences` (`sequences.dfy`): the subsequence relation used to state what a
  filter keeps.
- `LeadSearch` (`lead_search.dfy`): the lead record and the `filteredEnquiries`
  filter, with membership, order, subsequence, empty-term and idempotence lemmas.
- `AdminEnquiries` (`admin_enquiries.dfy`): the status query, `getStatusColor`,
  and the class `EnquiriesPage` holding the page state. Every network call is
  split into a start method, which returns the request the page sends, and a
  finish method, which receives what came back (a response body, a thrown
  error, or whether the update or delete succeeded). The state between the two
  is what the page shows while the request is in flight. The update and delete
  handlers are closures over the render in which the user acted; their start
  methods return that context (`PendingAction`: the row and the tab selected
  then), and the finish methods re-fetch that tab.
- `ThankYou` (`thank_you.dfy`): the `setCountdown` updater as the pure `Step`,
  the timer as the value `Timer` with its tick `Advance`, the class
  `RedirectCountdown` whose `Tick` follows `Advance`, digit stripping and the
  chat link.

The browser's side effects are parameters or results: whether a token is
stored (`hasToken`), whether the user confirmed a delete (`confirmed`), the
alert text and the page to navigate to (returned), and `encodeURIComponent`
(a function parameter `encode`). `RedirectCountdown.redirects` counts the calls
to `setCurrentPage("project")` made by the timer, so that "redirects exactly
once" can be stated.

## Model

| member | source | states |
|---|---|---|
| JsStrings.Lower | src/pages/AdminProjectEnquiries.jsx:88-91 | the ASCII model of `toLowerCase` keeps the length of the string |
| JsStrings.LowerAt | src/pages/AdminProjectEnquiries.jsx:88-91 | each character of the lower-cased string is the lower-case form of the original one, and no upper-case letter remains |
| JsStrings.LowerIdempotent | src/pages/AdminProjectEnquiries.jsx:88-91 | lower-casing the already lower-cased term or field changes nothing |
| JsStrings.Includes | src/pages/AdminProjectEnquiries.jsx:88-91 | `includes` of the empty string always holds; a match needs a needle no longer than the haystack |
| JsStrings.IncludesIffOccurs | src/pages/AdminProjectEnquiries.jsx:88-91 | `includes` holds exactly when the needle occurs at some position of the haystack |
| LeadSearch.ProjectMatches | src/pages/AdminProjectEnquiries.jsx:91 | a project matches only if present, non-empty and at least as long as the term |
| LeadSearch.Matches | src/pages/AdminProjectEnquiries.jsx:87-92 | the empty term matches every lead; a match needs some searched field at least as long as the term |
| LeadSearch.MatchesIff | src/pages/AdminProjectEnquiries.jsx:87-92 | a lead matches iff the lower-cased term occurs in the lower-cased name or e-mail, or the raw term in the raw phone, or the project is present, non-empty and contains the lower-cased term |
| LeadSearch.MissingProjectNeverMatches | src/pages/AdminProjectEnquiries.jsx:91 | a missing or empty project never makes a lead match; only name, e-mail and phone decide |
| LeadSearch.Filter | src/pages/AdminProjectEnquiries.jsx:86-93 | the shown list is no longer than the loaded list and holds only loaded leads that match |
| LeadSearch.FilterMembership | src/pages/AdminProjectEnquiries.jsx:86-93 | a lead is shown iff it was loaded and matches the term |
| LeadSearch.FilterEmptyIff | src/pages/AdminProjectEnquiries.jsx:86-93 | the shown list is empty iff no loaded lead matches |
| LeadSearch.FilterIsSubsequence | src/pages/AdminProjectEnquiries.jsx:86 | the shown list is a subsequence of the loaded list |
| LeadSearch.KeptPositions | src/pages/AdminProjectEnquiries.jsx:86-93 | the positions of the matching leads, strictly increasing, every one a match, and no matching position missing |
| LeadSearch.FilterSelectsKeptPositions | src/pages/AdminProjectEnquiries.jsx:86-93 | the k-th shown lead is the loaded lead at the k-th matching position: the filter keeps all matches and does not reorder |
| LeadSearch.FilterEmptyTerm | src/pages/AdminProjectEnquiries.jsx:88 | an empty search term shows every loaded lead |
| LeadSearch.FilterIdempotent | src/pages/AdminProjectEnquiries.jsx:86-93 | filtering the shown list again with the same term gives the same list |
| LeadSearch.NameSearchExample | src/pages/AdminProjectEnquiries.jsx:88 | "amit" finds a lead named "Amit" |
| LeadSearch.EmailSearchExample | src/pages/AdminProjectEnquiries.jsx:89 | "AMIT" finds a lead whose e-mail is "x@Amit.com" |
| AdminEnquiries.StatusQuery | src/pages/AdminProjectEnquiries.jsx:28 | the query is empty iff the status is "" or "all"; otherwise it is "?status=" followed by the status verbatim |
| AdminEnquiries.StatusQueryInjective | src/pages/AdminProjectEnquiries.jsx:28 | two statuses give the same query only if they are equal or both mean "every lead" |
| AdminEnquiries.NotRespondedQuery | src/pages/AdminProjectEnquiries.jsx:28 | the "not responded" tab sends "?status=not responded", space included |
| AdminEnquiries.ListRequestInjective | src/pages/AdminProjectEnquiries.jsx:28-29 | two tabs send the same GET exactly when they are the same tab or both ask for every lead ("" or "all") |
| AdminEnquiries.StatusColor | src/pages/AdminProjectEnquiries.jsx:76-84 | grey exactly for statuses other than converted, contacted and interested; "not responded" gets the default grey |
| AdminEnquiries.StatusColorDistinguishes | src/pages/AdminProjectEnquiries.jsx:76-84 | a coloured status's badge is shared with no other status |
| AdminEnquiries.EnquiriesPage.constructor | src/pages/AdminProjectEnquiries.jsx:18-23 | the page starts with no leads, zero counters, not loading, the "all" tab, an empty search and no busy row |
| AdminEnquiries.EnquiriesPage.RowDisabled | src/pages/AdminProjectEnquiries.jsx:219 | a disabled row is the only disabled row: no other id is the busy one |
| AdminEnquiries.EnquiriesPage.View | src/pages/AdminProjectEnquiries.jsx:174-178 | the loader iff loading; "No leads found" iff not loading and no loaded lead matches; otherwise the filtered leads, never empty |
| AdminEnquiries.EnquiriesPage.StartFetch | src/pages/AdminProjectEnquiries.jsx:25-29 | loading is raised and the list request for the status is sent |
| AdminEnquiries.EnquiriesPage.FinishFetch | src/pages/AdminProjectEnquiries.jsx:30-38 | a successful response replaces both leads and counters; an unsuccessful one or an error leaves both; loading ends false in every case; nothing else changes |
| AdminEnquiries.EnquiriesPage.FetchEnquiries | src/pages/AdminProjectEnquiries.jsx:25-39 | a whole fetch: request sent, then the replacement rule of FinishFetch, loading false |
| AdminEnquiries.EnquiriesPage.FilterEffect | src/pages/AdminProjectEnquiries.jsx:41-48 | without a token the page navigates to "admin-login" and sends nothing; with one it starts fetching the selected tab |
| AdminEnquiries.EnquiriesPage.SelectFilter | src/pages/AdminProjectEnquiries.jsx:149 | the clicked tab becomes the selected one; the effect on `[filter]` (lines 41-48) runs only when the tab changed |
| AdminEnquiries.EnquiriesPage.SetSearchTerm | src/pages/AdminProjectEnquiries.jsx:164-165 | the search term is replaced and the shown rows become the leads matching it |
| AdminEnquiries.EnquiriesPage.StartStatusUpdate | src/pages/AdminProjectEnquiries.jsx:50-53 | the row's id becomes the busy id, exactly that row's selector is disabled, a PUT of the new status to "/project-enquiries/<id>" is sent, and the handler keeps the tab selected at the click |
| AdminEnquiries.EnquiriesPage.FinishStatusUpdate | src/pages/AdminProjectEnquiries.jsx:54-59 | the busy id is cleared whether the update succeeded or not; success re-fetches the tab selected at the click, failure alerts "Failed to update status" |
| AdminEnquiries.EnquiriesPage.StartDelete | src/pages/AdminProjectEnquiries.jsx:62-66 | unconfirmed: nothing changes and nothing is sent; confirmed: the row becomes busy, a DELETE of "/project-enquiries/<id>" is sent, and the handler keeps the tab selected at the click |
| AdminEnquiries.EnquiriesPage.FinishDelete | src/pages/AdminProjectEnquiries.jsx:67-72 | the busy id is cleared whether the delete succeeded or not; success re-fetches the tab selected at the click, failure alerts "Failed to delete enquiry" |
| AdminEnquiries.EnquiriesPage.FinishAction | src/pages/AdminProjectEnquiries.jsx:54-58 | the shared tail of both handlers: re-fetch the tab the handler closed over, or alert; then clear the busy id |
| AdminEnquiries.TabSwitchDuringUpdate | src/pages/AdminProjectEnquiries.jsx:50-54 | on "contacted", update a row, switch to "all" before the update returns: the tab switch asks for every lead, the re-fetch after the update asks for "?status=contacted" |
| ThankYou.Step | src/pages/ThankYou.jsx:10-16 | the next value is never negative; it is 0 for a previous value of at most 1 and one less otherwise; the redirect fires exactly when the next value is 0 |
| ThankYou.Advance | src/pages/ThankYou.jsx:9-17 | a tick of a cleared interval changes nothing; a stopped timer never restarts; a running countdown drops by one; one redirect is counted exactly when the tick stops the timer |
| ThankYou.AdvancePreservesReachable | src/pages/ThankYou.jsx:10-16 | a tick keeps the countdown between 0 and 10, running only above 0, with one redirect exactly at 0, and lowers a running countdown by one |
| ThankYou.StoppedStaysPut | src/pages/ThankYou.jsx:12 | once the interval is cleared, no number of ticks changes the state |
| ThankYou.RunFrom | src/pages/ThankYou.jsx:10-16 | from a running value c, n ticks give c - n while n < c, and from the c-th tick on the value 0, stopped, with one redirect |
| ThankYou.CountdownFromTen | src/pages/ThankYou.jsx:5-16 | from 10 the countdown is never negative, drops by one on each of the first ten ticks, redirects exactly once on the tenth tick and runs until then |
| ThankYou.RedirectCountdown.constructor | src/pages/ThankYou.jsx:5-9 | the page mounts with 10, the interval running and no redirect |
| ThankYou.RedirectCountdown.Tick | src/pages/ThankYou.jsx:9-17 | the state follows Advance; the navigation to "project" is returned exactly when a running countdown at most 1 ticks; reachable states stay reachable |
| ThankYou.RedirectCountdown.Unmount | src/pages/ThankYou.jsx:20 | the cleanup clears the interval |
| ThankYou.StripNonDigits | src/pages/ThankYou.jsx:25 | the result holds only '0'..'9' and is no longer than the input |
| ThankYou.StripKeepsDigits | src/pages/ThankYou.jsx:25 | the result is a subsequence of the input holding every digit of the input as many times |
| ThankYou.StripAppend | src/pages/ThankYou.jsx:25 | stripping a concatenation strips each part |
| ThankYou.StripDigitsOnly | src/pages/ThankYou.jsx:25 | a string of digits is returned unchanged |
| ThankYou.StripIdempotent | src/pages/ThankYou.jsx:25 | stripping twice is stripping once |
| ThankYou.StripPlusPrefixed | src/pages/ThankYou.jsx:25 | a '+' followed by digits loses only the '+' |
| ThankYou.StripWhatsappNumber | src/pages/ThankYou.jsx:6 | "+919560002261" becomes "919560002261" |
| ThankYou.TakeUntil | src/pages/ThankYou.jsx:25 | the part of a string before the first '?': a prefix without '?', followed by '?' unless it is the whole string |
| ThankYou.WhatsAppLink | src/pages/ThankYou.jsx:25 | the link starts with "https://wa.me/", what lies between that prefix and the first '?' is exactly the stripped number, and right after the number comes `?text=` followed by the encoded message, whatever the encoder does |
| ThankYou.ClickLink | src/pages/ThankYou.jsx:23-26 | the button's link is exactly "https://wa.me/919560002261?text=" followed by the encoded fixed enquiry message, so it points at 919560002261 |

## Left out

- Unicode case mapping: `toLowerCase` is modelled for the ASCII letters A-Z only.
- `encodeURIComponent`: a function parameter with no properties assumed.
- The network client (`api.get`, `api.put`, `api.delete`), which is not part of this model: requests are returned as values and outcomes passed in. Interleavings of several requests are whatever order the caller invokes the start and finish methods in; nothing beyond that (such as which of two overlapping fetches lands last) is modelled.
- `localStorage`, `window.confirm`, `alert`, `window.open`, `setCurrentPage`: parameters or returned values.
- `setInterval` timing and React's scheduling of state updaters: one tick is one call.
- ThankYou.RedirectCountdown: the interval is installed once, in the constructor, which assumes `setCurrentPage` keeps its identity across renders. The effect at ThankYou.jsx:21 depends on `[setCurrentPage]`: if the parent passes a new function, React clears the interval and installs a new one while `countdown` keeps its value, and once the countdown has stopped at 0 the new interval's first tick sees `prev <= 1` and calls `setCurrentPage("project")` again. So `Advance`'s "a stopped timer never restarts" and `CountdownFromTen`'s "redirects exactly once" hold only under that assumption.
- Rendering: JSX, Tailwind classes other than the badge colours, icons, `AdminSidebar`, `Loader`, the stats cards and tab labels, `toLocaleDateString`, the "-" and "No message" placeholders for a missing special enquiry, and the "Back to home" button of the confirmation page.
- Leads with a non-string name, e-mail or phone, or a truthy non-string project: the model's lead record has these as strings (the project as an optional string). In the source the `||` chain stops at the first field that matches, so such a lead is shown without error when an earlier field matches (with the empty term, any string name does); the callback throws only when it reaches the bad field because every earlier field failed to match. That error is not modelled.
- The `console.error` logging of a failed fetch (line 35): logging only; the model's failed fetch changes the state exactly as the source's does.
- JsStrings.Includes: its contract states only two necessary facts; the full meaning is proved separately in JsStrings.IncludesIffOccurs.
