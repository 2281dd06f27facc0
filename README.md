# Business Nexus: a verified model of the application logic

Business Nexus is a React front end on which investors and entrepreneurs:

- sign in;
- browse each other's profiles;
- exchange collaboration requests;
- chat.

It keeps all its state in memory, starting from fixture arrays. This project models in Dafny the logic that the components carry, and proves what that logic promises:

- **Records and fixtures** (`Types`, `MockData`). The records are datatypes. The role-specific profiles are subset types that pin the role. The fixture lists are constants, and lemmas state the referential facts they satisfy.
- **Session** (`Auth.Session`). A class whose fields are:
  - the signed-in user;
  - the loading flag;
  - the persisted `currentUser` entry;
  - the shared user store.

  Its operations are restore, login by exact email, register (which appends to the store) and logout. Two client methods check the duplicate-email and fresh-email scenarios end to end.
- **Route guard** (`Access`). `ProtectedRoute` is a function of the loading flag, the user and the optional required role. The route table of App.tsx feeds it.
- **Investor discovery** (`Discovery`). This covers:
  - the case-insensitive substring search over three fields, with two exact-match facets;
  - the facet option lists, distinct and in first-occurrence order;
  - description truncation;
  - the stage label.
- **Request overview** (`RequestStats`). This covers:
  - the requests addressed to the signed-in entrepreneur;
  - their counts by status;
  - the acceptance percentage;
  - the status colours;
  - the requester lookup.
- **Chat** (`Chat`). This covers:
  - the conversation between two users, sorted stably by timestamp;
  - the keyword auto-reply with its priority order;
  - a `ChatView` class for one mounted page. Its `Send` appends the trimmed message and schedules a reply. Its `DeliverReply` is the step the 2000 ms timer performs.
- **Profiles** (`Profiles`). This covers:
  - resolving a profile id to a role record, or to a user of that role with default fields;
  - when the Message button is shown;
  - bio placeholders, link visibility and stage colours.

The shared modules `Seqs` and `Text` state the JavaScript library calls once, as functions on sequences and strings. `Seqs` covers `find`, `findIndex`, `filter` and `[...new Set(xs)]`. `Text` covers `toLowerCase`, `includes`, `trim`, `charAt(0).toUpperCase()` and `replace` with a one-character pattern.

Timestamps are integers: milliseconds since the epoch, the value `new Date(ts).getTime()` compares. The clock, the generated ids and the timer are parameters or explicit steps.

Two behaviours of the code that the model keeps:

- The search term is not trimmed before matching.
- A scheduled reply is not cancelled when the chat page goes away. `DeliverReply` may run for any send still pending.

## Model

| member | source | states |
|---|---|---|
| Types.StageNameInjective | types/index.ts:29 | the five funding stages are stored as five different strings, so comparing the strings compares the stages |
| MockData.UserIdsDistinct | data/mockData.ts:3-54 | the five fixture users have pairwise distinct ids |
| MockData.ProfilesCopyUsers | data/mockData.ts:56-106 | the two investor records are the users at positions 0 and 2, and the three entrepreneur records are the users at positions 1, 3 and 4; overwriting the role changes nothing because each already has it |
| MockData.RequestsAreWellFormed | data/mockData.ts:108-136 | every request's investor id names a user of role investor, its entrepreneur id names a user of role entrepreneur, and it was created no later than it was updated |
| MockData.InvestmentRangesAreOrdered | data/mockData.ts:56-73 | every fixture investor's range has min ≤ max |
| MockData.MessagesAreBetweenFirstTwoUsers | data/mockData.ts:138-163 | every fixture message goes between users '1' and '2', never from a user to itself |
| Identity.FindByEmail | contexts/AuthContext.tsx:34 | nothing is found exactly when no record has that exact email; otherwise the result is the first record that has it |
| Identity.FindById | pages/Chat.tsx:19 | nothing is found exactly when no record has the id; otherwise the result is the first record with it, whatever its role |
| Identity.AppendKeepsEarlierEmail | contexts/AuthContext.tsx:34-53 | appending a record under an email that is already taken does not change what that email resolves to |
| Identity.AppendFreshEmailResolves | contexts/AuthContext.tsx:34-53 | a record appended under an email nobody had resolves to itself |
| Auth.Session.constructor | contexts/AuthContext.tsx:19-21 | a provider starts with nobody signed in and loading, over the given store and persisted entry |
| Auth.Session.Restore | contexts/AuthContext.tsx:23-30 | a persisted user becomes the current user, loading ends either way, and the store and the persisted entry are unchanged |
| Auth.Session.Login | contexts/AuthContext.tsx:32-42 | succeeds if and only if some record has exactly this email; on success the user and the persisted entry are that first record; on failure user, entry and store are unchanged; the password plays no part |
| Auth.Session.Register | contexts/AuthContext.tsx:44-57 | always succeeds; the store grows by exactly the one record built from the supplied fields, the new id and the join date, and that record is signed in and persisted |
| Auth.Session.Logout | contexts/AuthContext.tsx:59-62 | nobody is signed in and nothing is persisted; the store is unchanged |
| Auth.DuplicateEmailScenario | contexts/AuthContext.tsx:32-57 | registering again under a fixture user's email, signing out and signing in with it resolves to the fixture record, not to the new one |
| Auth.FreshEmailScenario | contexts/AuthContext.tsx:32-57 | registering under an unused email, signing out and signing in with it resolves to the registered record |
| Access.Guard | components/ProtectedRoute.tsx:10-31 | loading gives the spinner whatever the user; no user gives a redirect to /login; the page is shown exactly when there is a user and no required role or the matching one; a wrong role redirects to that user's own dashboard, never to /login |
| Access.DashboardPath | components/ProtectedRoute.tsx:26 | a role's dashboard is never the login page |
| Access.DashboardPathsDiffer | components/ProtectedRoute.tsx:26 | the two roles land on different dashboards |
| Access.WrongRoleRedirectSettles | App.tsx:18-57 | `Visit`, what navigating to a route of the table shows: a wrong-role redirect names a route of the table which that same user is then allowed to see |
| Access.SignedOutReachesLogin | App.tsx:18-57 | through `Visit`: signed out, every guarded route redirects to /login, and /login itself is unguarded |
| Access.SharedRoutesAdmitAnyRole | App.tsx:36-57 | both profile routes and the chat route admit a signed-in user of either role |
| Seqs.Find | contexts/AuthContext.tsx:34 | `find`: something is found exactly when some element satisfies the test, and the result is the first element that does |
| Seqs.Filter | pages/InvestorDashboard.tsx:15 | `filter`: the result is a subsequence of the input and holds every passing element as many times as the input does, and no other element |
| Seqs.FilterConcat | pages/InvestorDashboard.tsx:15 | filtering a concatenation filters each part and keeps the parts in order |
| Seqs.Distinct | pages/InvestorDashboard.tsx:26 | `[...new Set(xs)]`: exactly the values of the input, each once |
| Seqs.DistinctFirstOccurrenceOrder | pages/InvestorDashboard.tsx:26 | the values come in the order of their first occurrence in the input |
| Seqs.DistinctOfNoDuplicates | pages/InvestorDashboard.tsx:26 | a list without repeats comes back unchanged |
| Text.ToLower | pages/InvestorDashboard.tsx:16-18 | `toLowerCase` keeps the length, turns each upper-case letter into its lower-case letter (code point plus 32), leaves no upper-case letter and changes nothing else |
| Text.ToLowerIdempotent | pages/InvestorDashboard.tsx:16-18 | lower-casing twice is lower-casing once |
| Text.IncludesIff | pages/InvestorDashboard.tsx:16-18 | `Includes` (`includes`): `includes` holds exactly when the needle occurs at some position of the string |
| Text.TrimSlice | pages/Chat.tsx:42 | `Trim` (`trim`): `trim` returns a slice of its input with only whitespace before and after it |
| Text.TrimEmptyIffBlank | pages/Chat.tsx:42 | `trim` returns the empty string exactly when the input is all whitespace |
| Text.TrimEnds | pages/Chat.tsx:48 | what `trim` keeps neither starts nor ends with whitespace |
| Text.ReplaceFirst | pages/InvestorDashboard.tsx:113 | `replace` with a one-character pattern changes only the first occurrence and keeps the length |
| Text.Label | pages/InvestorDashboard.tsx:113 | the label upper-cases the first character and turns only the first '-' after it into a space |
| Discovery.FilterEntrepreneurs | pages/InvestorDashboard.tsx:15-24 | the filter over `Matches`, which is `MatchesSearch` and `MatchesFacets` (an empty facet passes everything, otherwise the industry or stage must be equal): the shown records are a subsequence of the list, holding each record that matches the search and both facets as often as the list does, and no other record |
| Discovery.MatchesSearchIff | pages/InvestorDashboard.tsx:16-18 | `MatchesSearch`: a record matches the search exactly when the lower-cased term occurs somewhere in the lower-cased name, startup name or description; one field is enough |
| Discovery.SearchIgnoresCase | pages/InvestorDashboard.tsx:16-18 | lower-casing the term first changes nothing in the result |
| Discovery.SearchCaseVariants | pages/InvestorDashboard.tsx:16-18 | two search terms that differ only in the case of their letters show the same records |
| Discovery.FacetNarrows | pages/InvestorDashboard.tsx:20-23 | the faceted result is a subsequence of the result with both facets empty |
| Discovery.ClearedFiltersShowAll | pages/InvestorDashboard.tsx:154-158 | with the three inputs cleared the whole list is shown, in order |
| Discovery.FixtureUnknownIndustryIsEmpty | pages/InvestorDashboard.tsx:20-24 | an industry no fixture record has shows nothing |
| Discovery.Industries | pages/InvestorDashboard.tsx:26 | the industry options hold each industry of the list exactly once |
| Discovery.FundingStages | pages/InvestorDashboard.tsx:27 | the stage options hold each stage of the list exactly once |
| Discovery.FixtureIndustries | pages/InvestorDashboard.tsx:26 | for the fixtures the options are CleanTech, Healthcare, EdTech, in that order |
| Discovery.FixtureFundingStages | pages/InvestorDashboard.tsx:27 | for the fixtures the options are series-a, series-b, seed, in that order |
| Discovery.ShortDescription | pages/InvestorDashboard.tsx:120-122 | a description over 120 characters becomes its first 120 followed by "..."; a shorter one is shown unchanged |
| Discovery.ShortDescriptionIdempotent | pages/InvestorDashboard.tsx:120-122 | shortening a shown description again changes nothing |
| Discovery.StageLabel | pages/InvestorDashboard.tsx:113 | the label is as long as the stored stage string |
| Discovery.StageLabels | pages/InvestorDashboard.tsx:113 | the five labels are Seed, Series a, Series b, Series c and Ipo |
| RequestStats.UserRequests | pages/EntrepreneurDashboard.tsx:16-18 | the requests addressed to the signed-in user, each as often as in the ledger, in ledger order; nobody signed in gets none |
| RequestStats.UserRequestsConcat | pages/EntrepreneurDashboard.tsx:16-18 | the selection is made request by request, so a split ledger is selected part by part, in order |
| RequestStats.CountWithStatus | pages/EntrepreneurDashboard.tsx:52-54 | the count for a status is the number of times that status occurs among the requests, and so never exceeds the number of requests |
| RequestStats.ComputeStats | pages/EntrepreneurDashboard.tsx:50-55 | the total is the number of requests, and pending, accepted and rejected add up to it |
| RequestStats.StatusCountsPartition | pages/EntrepreneurDashboard.tsx:50-55 | every request is counted under exactly one of the three statuses |
| RequestStats.AcceptanceRate | pages/EntrepreneurDashboard.tsx:191-193 | 0 when there are no requests, otherwise 100·accepted/total rounded half up |
| RequestStats.AcceptanceRateAtMostHundred | pages/EntrepreneurDashboard.tsx:191-193 | the rate never exceeds 100 |
| RequestStats.AcceptanceRateExamples | pages/EntrepreneurDashboard.tsx:191-193 | 1 of 3 gives 33, none gives 0, 1 of 2 gives 50 |
| RequestStats.UnaddressedUserSeesEmptyState | pages/EntrepreneurDashboard.tsx:114 | a user no request is addressed to sees the empty-state panel, all-zero counts and a 0 rate |
| RequestStats.FixtureEntrepreneurRequests | pages/EntrepreneurDashboard.tsx:16-18 | Michael Chen's dashboard lists exactly the first fixture request |
| RequestStats.FixtureAcceptedRequestStats | pages/EntrepreneurDashboard.tsx:50-55 | David Park's dashboard counts one request, accepted, at a rate of 100 |
| RequestStats.SingleRequestStats | pages/EntrepreneurDashboard.tsx:50-55 | a single request counts once in the total and once under its own status |
| RequestStats.StatusColorsDistinct | pages/EntrepreneurDashboard.tsx:24-31 | `StatusColor` (`getStatusColor`): the three statuses get three different colour classes |
| RequestStats.RequesterOf | pages/EntrepreneurDashboard.tsx:20-22 | the requester is the first user with the request's investor id, with no role check; nothing when no user has it |
| Chat.SortByTimestamp | pages/Chat.tsx:28 | the sorted list is a permutation of its input, in ascending timestamp order |
| Chat.SortKeepsTies | pages/Chat.tsx:28 | messages with equal timestamps keep their input order |
| Chat.StableSortIsUnique | pages/Chat.tsx:28 | every ascending, tie-preserving order of the input is this one, so the model agrees with any stable sort |
| Chat.Conversation | pages/Chat.tsx:21-30 | the conversation holds exactly the messages from one participant to the other, in either direction, sorted ascending |
| Chat.ConversationKeepsTies | pages/Chat.tsx:24-28 | messages of the conversation with equal timestamps appear in store order |
| Chat.ConversationSymmetric | pages/Chat.tsx:24-27 | both participants see the same conversation |
| Chat.FixtureConversation | pages/Chat.tsx:21-30 | users '1' and '2' see the three fixture messages in fixture order |
| Chat.ConversationOfSortedStore | pages/Chat.tsx:21-30 | a store holding only the two users' messages, already in time order, is shown unchanged |
| Chat.AutoReplyPriority | pages/Chat.tsx:72-84 | `AutoReply` (`getAutoReply`): the greeting is chosen exactly when "hello" or "hi" occurs; the meeting reply exactly when no greeting word does and "meeting" or "call" does; the funding reply exactly when neither earlier pair occurs and "investment" or "funding" does; otherwise the default |
| Chat.GreetingNamesInterest | pages/Chat.tsx:75 | the greeting names investment opportunities when the current user is an investor and the startup otherwise |
| Chat.GreetingExample | pages/Chat.tsx:73-76 | "Hi there" gets the greeting, since case is ignored |
| Chat.GreetingInsideWordExample | pages/Chat.tsx:74 | "this" gets the greeting, because "hi" is a substring test |
| Chat.GreetingFirstExample | pages/Chat.tsx:74-81 | a message that greets and mentions funding gets the greeting |
| Chat.MeetingExample | pages/Chat.tsx:77-79 | "Can we set up a call" gets the meeting reply |
| Chat.FundingExample | pages/Chat.tsx:80-82 | "Any funding news?" gets the funding reply |
| Chat.NoKeywordLettersGetDefault | pages/Chat.tsx:72-84 | a message with none of the letters h, m, c, i, f gets the default reply |
| Chat.DefaultExample | pages/Chat.tsx:83 | "Ok, great" gets the default reply |
| Chat.ChatView.constructor | pages/Chat.tsx:12-30 | with a user and a peer id the page holds the conversation from the store, otherwise nothing; the peer is looked up by id; the input is empty, nobody is typing and no reply is pending |
| Chat.ChatView.Edit | pages/Chat.tsx:199 | typing replaces the input text and changes nothing else |
| Chat.ChatView.Send | pages/Chat.tsx:40-57 | blank input, no user, no peer id, or a peer id that names nobody (the "User not found" page of pages/Chat.tsx:93-102 has no input box) changes nothing; otherwise exactly one unread message with the trimmed text goes from the user to the peer at the end, the input is cleared, the typing indicator goes on and a reply to that text is queued; the message store is never written |
| Chat.ChatView.DeliverReply | pages/Chat.tsx:58-69 | the earliest pending reply goes from the peer to the user, answers the sent text according to the current user's role, is stamped a second after the timer fires and is appended at the end; the indicator goes off; the view keeps only messages between the two users |
| Profiles.EntrepreneurDefaults | pages/EntrepreneurProfile.tsx:38-46 | a bare entrepreneur user is shown with seed stage, a 500000 need, no pitch deck and an empty website, the user fields kept |
| Profiles.InvestorDefaults | pages/InvestorProfile.tsx:38-44 | a bare investor user is shown with 5 investments and a range with min ≤ max, the user fields kept |
| Profiles.ResolveEntrepreneur | pages/EntrepreneurProfile.tsx:13-25 | the first entrepreneur record with the id wins; failing that, not found exactly when no user has the id and the entrepreneur role, and otherwise the first such user dressed in the defaults |
| Profiles.ResolveInvestor | pages/InvestorProfile.tsx:13-25 | the first investor record with the id wins; failing that, not found exactly when no user has the id and the investor role, and otherwise the first such user dressed in the defaults |
| Profiles.FixtureEntrepreneurProfiles | pages/EntrepreneurProfile.tsx:13-14 | id '2' resolves to Michael Chen's startup record; id '1', an investor, is not found |
| Profiles.FixtureInvestorProfiles | pages/InvestorProfile.tsx:13-14 | id '3' resolves to Emily Rodriguez's investor record; id '2', an entrepreneur, is not found |
| Profiles.RegisteredEntrepreneurGetsDefaults | pages/EntrepreneurProfile.tsx:13-46 | a newly registered entrepreneur with no startup record gets a profile built from the defaults |
| Profiles.MessageButtonLeadsToChat | pages/EntrepreneurProfile.tsx:27-91 | `CanMessageEntrepreneur` and `CanMessageInvestor` (the button conditions of pages/EntrepreneurProfile.tsx:89 and pages/InvestorProfile.tsx:73): the Message button shows exactly for a signed-in viewer of the other role who does not own the profile, never on both kinds of profile for the same viewer, and the chat route it links to admits that viewer |
| Profiles.BioText | pages/EntrepreneurProfile.tsx:109 | a non-empty bio is shown as is; a missing or empty one shows the placeholder |
| Profiles.BioNeverEmpty | pages/InvestorProfile.tsx:93 | the About text is never empty on either profile |
| Profiles.DefaultsShowNoLinks | pages/EntrepreneurProfile.tsx:122-158 | a profile built from the defaults shows no website link and no pitch deck |
| Profiles.StageColorsAgreeExceptSeriesC | pages/EntrepreneurProfile.tsx:48-56 | `FundingStageColor` (`getFundingStageColor`) against `Discovery.CardStageColor` (the card badge of pages/InvestorDashboard.tsx:107-112): the profile and the discovery card colour a stage alike except series-c, which only the profile colours orange |
| Profiles.ProfileStageLabel | pages/EntrepreneurProfile.tsx:85 | the profile labels the stage as the card does, "Seed" for the defaults |

## Left out

- Markup, CSS beyond the colour maps, icons and scrolling to the newest message are presentation only.
- The navigation bar, the sidebar, the registration form and the page layout are left out. They hold no logic beyond what the guard already covers.
- `localStorage` becomes the `stored` field of the session. JSON encoding is the identity there, and a parse error, which the code does not catch, is not modelled.
- The clock, `Date.now()` ids, ISO date strings and the 2000 ms timer are parameters. The timer is the explicit `DeliverReply` step, taken in the order the sends were made.
- Locale formatting of dates and money, and the progress-bar width, are library calls and floating-point CSS values.
- React hooks, the context provider and the `useAuth` provider check are framework plumbing.
- Text.ToLower: only ASCII letters change case, while `toLowerCase` covers all of Unicode.
- Discovery.ShortDescription: lengths and the cut at 120 count characters (Unicode scalar values), while JavaScript's `length` and `substring` count UTF-16 code units. A description with characters outside the Basic Multilingual Plane is cut later in the model than on the page; for example 61 emoji are 122 code units and are cut by the page but shown whole by the model.
- Text.TrimSlice: only ASCII whitespace counts, while `trim` also removes Unicode spaces and line terminators.
- Chat.ChatView.Send: its blank-input test uses the same ASCII-only `Trim`, so a draft of only non-ASCII spaces (U+00A0, say) is refused by the page but sent by the model.
- RequestStats.AcceptanceRate: computed exactly over the integers, while the code rounds a floating-point quotient. The two can differ when 100·accepted/total lies exactly halfway between two integers and the division is inexact in binary.
- Chat.ChatView.Send: the "User not found" panel is not a separate state of the page object. The page renders no input box there, so `Send` changes nothing when the peer id names nobody. The loading effect still fills the message list in that case, as the code does.
- Chat.ChatView.Send: sending does not write to the fixture message store, so the model has no operation that changes that store. Reopening a chat page shows the store's messages only.
- Sending and the reply delivery are separate steps on the page object. No single method runs a send followed by its reply.
