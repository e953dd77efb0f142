# Innovest client core, modelled in Dafny

Innovest is a single-page social client for sharing ideas and milestones and
meeting investors. All of its data lives in a hosted backend. The browser
code fetches rows, keeps them in React state, and writes rows back. This
project models the logic the client itself contributes, with every backend
reply passed in as a parameter:

- the home feed's interest filter and its top-five ranking by engagement;
- the search screen's server-side filter and its in-place client-side sort;
- the post form's tag editor and the fixed type and visibility domains;
- the onboarding screen's interest toggling and completion guard;
- the notification list updates;
- the chat screen's message list: loading, sending, the realtime append, the
  other-participant rule, the own-message rule and the mark-read update;
- the bottom navigation's item table and its highlighting rule;
- the route guard table of `AppContent`.

There is one module per file:

- `Wrappers`: `Option`, plus `Reply`, a query outcome holding `data` or a failure.
- `Lists`: `filter`, removing a value, no duplicates, order-preserving subsequences.
- `Text`: the JavaScript string operations used: `trim`, `toLowerCase`, `includes` and `startsWith`.
- `Posts`: the post row and the form's value domains.
- `Ranking`: the stable descending sort. It is a function, plus an in-place insertion sort on an array proved equal to it.
- One module for each screen: `Home`, `Search`, `NewPost`, `Onboarding`, `Notifications`, `Chat`, `BottomNav`, `App`.

The stateful screens are classes whose fields are the component's state
variables, with one method per handler:

- `NewPost.TagEditor`
- `Onboarding.OnboardingForm`
- `Notifications.NotificationsScreen`
- `Chat.ChatScreen`

Each method states the whole new state. The properties the screens keep
are stated as invariants and lemmas.

`Array.prototype.sort` is stable. With the comparators used here it puts
larger keys first and keeps posts with equal keys in their input order.
`Ranking.SortDescending` is that result: `Ranking.Descending` states the
first half and `Ranking.SortDescendingStable` the second.
`Ranking.SortInPlace` sorts `sortedData` in place, as the search screen
does, and is proved to produce exactly that sequence.

`fetchChat`'s mark-read update filters by `chat_id` and `sender_id` only
(src/pages/Chat.tsx:114-115). It therefore marks every message from the
other participant, read or not.

## Model

| member | source | states |
|---|---|---|
| Wrappers.OrEmpty | src/pages/Search.tsx:47 | `data \|\| []`: a missing result becomes the empty list, a present one is kept |
| Lists.Filter | src/pages/Home.tsx:50 | `filter(keep)`: no longer than the input; an element is kept exactly when it is in the input and passes; each passing value keeps its count; the order is kept |
| Lists.RemoveAll | src/pages/NewPost.tsx:36 | `filter(t => t !== x)`: the value is gone, every other value keeps its membership and count, and the order is kept |
| Text.Trim | src/pages/NewPost.tsx:29 | `trim()`: the result is a slice of the input, with no white space at either end and only white space cut off; it is empty exactly when the input is all white space |
| Text.StartsWith | src/components/BottomNav.tsx:21 | definition: `startsWith(prefix)`, the input's first `\|prefix\|` characters are `prefix` |
| Text.ContainsIgnoringCaseOfContains | src/pages/Search.tsx:38 | an exact occurrence is also an occurrence ignoring case |
| Text.ContainsIgnoringCaseOfLower | src/pages/Search.tsx:38 | lowering the searched-for string first does not change a case-insensitive search |
| Text.ToLower | src/pages/Home.tsx:52 | `toLowerCase()`: same length, no upper-case letter left, every other character unchanged |
| Text.Contains | src/pages/Home.tsx:52 | `includes(sub)`: true exactly when `sub` occurs at some position |
| Posts.ParsePostType | src/pages/NewPost.tsx:17 | a `type` value parses exactly when it is `idea` or `milestone`, and parses back to its own string |
| Posts.ParseVisibility | src/pages/NewPost.tsx:21 | a `visibility` value parses exactly when it is `public`, `investors_only` or `private` |
| Posts.FormDomains | src/pages/NewPost.tsx:99-189 | the values the type buttons and visibility items offer are exactly the two domains, and every domain value round-trips |
| Ranking.SortDescending | src/pages/Home.tsx:61 | the comparator sort's result: a permutation of the input, non-increasing in the key |
| Ranking.SortDescendingOfDescending | src/pages/Home.tsx:61 | a list that is already in order is returned unchanged (the sort is stable) |
| Ranking.SortDescendingStable | src/pages/Search.tsx:49 | the posts sharing any one key value appear in the sorted list in the same order as in the input |
| Ranking.SortInPlace | src/pages/Search.tsx:48-51 | sorting the array in place leaves in it exactly the stable descending sort of its old contents |
| Home.MatchesInterests | src/pages/Home.tsx:51-53 | definition: some interest, lowercased, occurs in the post's lowercased category |
| Home.Feed | src/pages/Home.tsx:48-55 | with missing or empty interests the feed is the fetched list unchanged; otherwise a post is in it exactly when some lowercased interest occurs in its lowercased category; always an order-preserving subsequence of the fetched posts |
| Home.TopPosts | src/pages/Home.tsx:60-62 | length is the smaller of 5 and the number of fetched posts; non-increasing in likes plus comments; drawn from all fetched posts |
| Home.TopPostsAreTheLargest | src/pages/Home.tsx:60-62 | no fetched post left out of the top posts has a larger engagement sum than one that was taken |
| Home.FetchPosts | src/pages/Home.tsx:20-64 | both lists are set only for a signed-in user whose posts query succeeded; the feed comes from the filter and the top posts from the full fetched list |
| Home.TopPostsIgnoreInterests | src/pages/Home.tsx:60 | the top posts are the same whatever the viewer's interests |
| Home.FeedOfTwo | src/pages/Home.tsx:49-54 | with a single interest, a post whose category mentions it stays and one whose category does not is dropped |
| Home.FeedExample | src/pages/Home.tsx:49-54 | interests `["Health"]` over a Health and a Finance post keep only the Health post |
| Home.TopPostsExample | src/pages/Home.tsx:60-62 | posts with (likes, comments) (10, 5), (2, 1), (8, 8) rank third, first, second |
| Search.Matches | src/pages/Search.tsx:35-43 | definition: the accumulated filter, public and matching the text filter (if the query is non-empty) and the category filter (unless `all`) |
| Search.QueryIgnoresCase | src/pages/Search.tsx:38 | a title or description holding the query verbatim matches it, and the query's case makes no difference to the match |
| Search.ServerRows | src/pages/Search.tsx:26-45 | only public posts are returned; an empty query adds no text filter, a non-empty one keeps a post exactly when the query occurs, ignoring case, in its title or description; `all` adds no category filter, any other category keeps exactly the posts with that category |
| Search.OrderOf | src/pages/Search.tsx:48-52 | `reactions` picks the engagement order, `recent` the creation-time order, anything else no sort |
| Search.FetchedRows | src/pages/Search.tsx:45-47 | a `null` result becomes the empty list; otherwise the server's rows |
| Search.SearchPosts | src/pages/Search.tsx:23-54 | the result is a permutation of the fetched rows, each a public match; non-increasing in engagement for `reactions` and in creation time for `recent`; unsorted for any other value |
| NewPost.AddKeepsValid | src/pages/NewPost.tsx:29-30 | appending an accepted trimmed input keeps the tags non-empty, trimmed and free of duplicates |
| NewPost.RemoveKeepsValid | src/pages/NewPost.tsx:36 | removing a tag keeps the tags non-empty, trimmed and free of duplicates |
| NewPost.AddThenRemove | src/pages/NewPost.tsx:28-37 | removing the tag just added gives back the original list |
| NewPost.TagEditor.constructor | src/pages/NewPost.tsx:22-23 | no tags and an empty input |
| NewPost.TagEditor.SetTagInput | src/pages/NewPost.tsx:161 | the input changes and the tags do not |
| NewPost.TagEditor.AddTag | src/pages/NewPost.tsx:28-33 | a non-empty trimmed input not yet present is appended at the end and the input is cleared; otherwise both fields are unchanged |
| NewPost.TagEditor.RemoveTag | src/pages/NewPost.tsx:35-37 | the tag is dropped, the other tags keep their order (removing the one occurrence), an absent tag is a no-op, and the input is unchanged |
| NewPost.AddThenRemoveRestores | src/pages/NewPost.tsx:28-37 | `addTag` followed by `removeTag` of the added tag restores `tags` |
| Onboarding.Toggle | src/pages/Onboarding.tsx:26-32 | a present interest is removed with the others kept in order; an absent one is appended at the end; no duplicates are introduced |
| Onboarding.ToggleTwiceAbsent | src/pages/Onboarding.tsx:27-31 | toggling an absent interest twice restores the exact list |
| Onboarding.ToggleTwicePresent | src/pages/Onboarding.tsx:27-31 | toggling a present interest twice keeps the same set but moves that interest to the end |
| Onboarding.ToggleAllKeepsSelection | src/pages/Onboarding.tsx:109-114 | any sequence of badge clicks keeps the selection free of duplicates and within the interest catalog |
| Onboarding.OnboardingForm.constructor | src/pages/Onboarding.tsx:20-21 | the role starts as innovator with no interests selected |
| Onboarding.OnboardingForm.SelectRole | src/pages/Onboarding.tsx:95 | the role changes and the interests do not |
| Onboarding.OnboardingForm.ToggleInterest | src/pages/Onboarding.tsx:26-32 | the selection becomes the toggled selection and stays free of duplicates |
| Onboarding.OnboardingForm.HandleComplete | src/pages/Onboarding.tsx:34-64 | an empty selection performs no update; with no user nothing is written; otherwise the written role is `innovator` or `investor` and the written interests are exactly the selected list |
| Notifications.MarkRead | src/pages/Notifications.tsx:60-62 | every entry with the id becomes read, every other entry is identical, and length and order are kept |
| Notifications.MarkReadEffect | src/pages/Notifications.tsx:61 | afterwards no entry with the id is unread, and every entry keeps its id, owner, title, message and time |
| Notifications.MarkReadIdempotent | src/pages/Notifications.tsx:60-62 | marking twice equals marking once |
| Notifications.MarkReadPrepend | src/pages/Notifications.tsx:25 | marking commutes with prepending a pushed notification |
| Notifications.MarkReadAbsent | src/pages/Notifications.tsx:61 | marking an id that no entry carries changes nothing |
| Notifications.NotificationsScreen.constructor | src/pages/Notifications.tsx:8-9 | an empty list, loading |
| Notifications.NotificationsScreen.Fetch | src/pages/Notifications.tsx:35-52 | for a signed-in user the list is replaced by the fetched rows, or by the empty list when the result is `null`; loading ends on every path |
| Notifications.NotificationsScreen.OnInsert | src/pages/Notifications.tsx:24-26 | the new list is `[new] + old` |
| Notifications.NotificationsScreen.MarkAsRead | src/pages/Notifications.tsx:54-63 | the list becomes the marked list, whatever the remote update returned |
| Notifications.NotificationsScreen.Click | src/pages/Notifications.tsx:84 | `markAsRead` runs exactly when the notification is unread; otherwise nothing changes |
| Chat.OtherUser | src/pages/Chat.tsx:95 | `user2` when the viewer is `user1_id`, and `user1` otherwise |
| Chat.OtherUserIsTheOtherParticipant | src/pages/Chat.tsx:95 | in a chat between two different users, a participant is shown the other participant's profile, never their own |
| Chat.IsOwnMessage | src/pages/Chat.tsx:231 | definition: `message.sender_id === currentUser?.id`; with no current user no message is the viewer's own |
| Chat.Targets | src/pages/Chat.tsx:114-115 | definition: the update's filter, the chat's id and a sender other than the viewer |
| Chat.TargetsOthersMessages | src/pages/Chat.tsx:111-115 | the mark-read filter selects exactly this chat's messages that are not the viewer's own |
| Chat.MarkChatRead | src/pages/Chat.tsx:111-115 | the update sets `read` on exactly the selected messages and leaves every other row identical |
| Chat.MarkChatReadEffect | src/pages/Chat.tsx:111-115 | afterwards every message from the other participant in this chat is read; own messages and other chats' messages are untouched |
| Chat.ChatScreen.constructor | src/pages/Chat.tsx:16-22 | the initial state of the screen's seven state variables |
| Chat.ChatScreen.SetNewMessage | src/pages/Chat.tsx:271 | the input changes and nothing else |
| Chat.ChatScreen.FetchChat | src/pages/Chat.tsx:64-127 | with no user nothing changes; a missing chat leads to the chat list; otherwise the chat, the other participant and the message list (`[]` for `null`) are set and the mark-read update is sent; loading ends on every path |
| Chat.ChatScreen.OnInsert | src/pages/Chat.tsx:44-47 | the pushed message is appended after all existing ones, with no deduplication, and the earlier messages are unchanged |
| Chat.ChatScreen.SendMessage | src/pages/Chat.tsx:129-173 | an all-white-space input or a missing chat id does nothing; the inserted content is the trimmed input; on success exactly one message is appended and the input is cleared; on failure the list and the input are unchanged; `sending` ends false |
| Chat.OwnMessagesAfterLoad | src/pages/Chat.tsx:64-71 | after `fetchChat` for a signed-in user, whatever the queries returned, the current user is set and a message is drawn as the viewer's own exactly when that user sent it |
| Chat.SendTrimmed | src/pages/Chat.tsx:129-153 | for the signed-in viewer, sending text padded with spaces sends exactly the insert of the text without the spaces, appends the echoed row, clears the input, and the row counts as the current user's own |
| BottomNav.NavItems | src/components/BottomNav.tsx:7-13 | definition: the five items Home `/`, Profile `/profile`, Post `/new-post`, Notifications `/notifications` and Chats `/chats`, in this order |
| BottomNav.IsActive | src/components/BottomNav.tsx:20-21 | `isActive`: the pathname is the item's path, or the item is Profile and the pathname starts with `/profile`; an item is only ever highlighted at or below its own path |
| BottomNav.ActiveOnOwnPath | src/components/BottomNav.tsx:20 | each of the items Home, Profile, Post, Notifications and Chats is highlighted on its own path |
| BottomNav.ProfileActiveBelowProfile | src/components/BottomNav.tsx:20-21 | any pathname starting with `/profile` highlights Profile and no other item |
| BottomNav.AtMostOneActive | src/components/BottomNav.tsx:7-21 | no pathname highlights two items |
| BottomNav.SomeItemActive | src/components/BottomNav.tsx:7-21 | an item is highlighted exactly on `/`, `/new-post`, `/notifications`, `/chats` and pathnames starting with `/profile` |
| BottomNav.NothingActiveOnChatOrSearch | src/components/BottomNav.tsx:20-21 | a chat page `/chat/<id>` and `/search` highlight no item |
| App.AppContent | src/App.tsx:45-66 | while loading, the loading screen for every route; `/auth` redirects a signed-in user to `/onboarding` and otherwise shows Auth; every other named route shows its page when signed in and redirects to `/auth` otherwise; unmatched routes show NotFound either way |
| App.NoRedirectChains | src/App.tsx:55-64 | the target of a redirect shows a page for the same user |
| App.PagesByUser | src/App.tsx:55-65 | a signed-out user only sees Auth or NotFound, and a signed-in user never sees Auth |
| App.SignedInSeesEveryPage | src/App.tsx:56-65 | once loaded, a signed-in user sees the page of every route except `/auth` |

## Left out

- Backend calls: authentication, table queries, inserts, updates and realtime subscriptions are remote I/O. Their results are parameters, and success or failure is a boolean or an `Option`.
- The home feed's query (`eq('visibility', 'public')`, its order and `limit(50)`, src/pages/Home.tsx:41-43) is not modelled; its rows are taken as given. The same holds for the ordering of the notifications and messages queries. The search rows are taken in table order.
- The investment screen, the post card, the profile screen and the chat list are not part of this model. They are floating-point sums over strings, thin wrappers around one remote call, or fetch-and-render.
- `ilike` wildcards (`%` and `_`) in the search query, and the interpolation of the query into the filter string. These are backend semantics; the filter is modelled as plain substring containment, ignoring case.
- Rendering and display: JSX, toasts, the scroll-to-bottom timers and date formatting.
- The router's path-pattern matching. A route is a datatype value.
- The interleaving of asynchronous handlers and callbacks. For example, a message pushed before a fetch completes, or an input edited while a send is pending, is not modelled. Every handler is modelled as one atomic step.
- The `loading` flags of the home, search, onboarding and post form screens. They only disable buttons and show spinners.
- The post form's `handleSubmit` insert, its title, description and category fields, and its category list. Only the tag editor and the type and visibility domains are modelled.
- Text.ToLower: lowercases the ASCII letters A to Z only. `toLowerCase` also maps other Unicode letters, so `Home.Feed` and `Search.ServerRows` are stated for that ASCII case mapping.
- Ranking.SortDescending: engagement and creation time are unbounded integers. Floating-point counters and an invalid `created_at` date are not modelled; an invalid date gives a comparator returning NaN.
- Text.Trim: uses the white-space and line-terminator set of the ECMAScript specification, fixed at the Unicode version it lists. Characters added to Unicode's space category later are not included.
- The notifications subscription has no user filter in the code. It is modelled as written: every pushed notification is prepended, whoever it belongs to.
- The chat screen's mark-read update does not change the locally displayed messages. `Chat.MarkChatRead` models its effect on the `messages` table.
