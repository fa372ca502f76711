# S2SmartZone campus marketplace — a Dafny model of its client-side rules

S2SmartZone is a front-end prototype of a student marketplace for the University
of Jos. Every page runs on mock data in the browser. The behaviour worth stating
precisely is a handful of small rules spread over the pages:

- **Listing search** (marketplace page and the dashboard's "All Listings" page):
  a case-insensitive title match combined with an exact category match, where no
  selection and 'All' match everything. Module `ListingSearch` states the rule
  once. `Marketplace` and `DashboardListings` apply it to each page's mock list.
  `Marketplace` also covers the category select and the routing on a listing click.
- **My listings** (`MyListings`): a class holding the page's `listings` state.
  It has a delete handler and a sold/unsold toggle, each specified by a pure
  function on the list.
- **Form schemas**: signup (`Signup`, including the password-strength meter),
  login (`Login`) and create-listing (`CreateListing`). Module `FormRules` holds
  the rules these schemas state identically. Each field validator returns the
  messages of the rules the value breaks, in declaration order; the form shows
  the first one. An empty field counts as absent, because the form library turns
  `''` into `undefined` before validating. So an empty field gets only its
  "required" message, and an empty optional field passes.
- **Image picker** (`CreateListing.SelectImages` and the `CreateListingPage`
  class): a loop that keeps at most the first five selected files.
- **Hero carousel** (`Home.HomePage`): a three-slide state machine with
  wrap-around. Also the redirect applied to product clicks.
- **Dashboard navigation** (`DashboardLayout`): active item, header title and
  the mobile bar.
- **Initials** on the team cards (`About`).

Shared helpers: `Wrappers` (Option), `Seqs` (`filter` on sequences and the
order-preserving subsequence relation) and `Text` (ASCII lower-casing,
`includes`, suffix test, character classes).

Listing status has two spellings in the code: the browsing pages type it as
`'sold' | 'available'` (`src/app/marketplace/MarketplaceClient.tsx:13`), the
my-listings page as `'sold' | 'unsold'` (`src/app/dashboard/my-listings/page.tsx:11`).
The model gives each page its own status type.

## Model

| member | source | states |
|---|---|---|
| `ListingSearch.FilterListings` | src/app/marketplace/MarketplaceClient.tsx:94-99 | the result is an order-preserving subsequence of the listings; a listing is in it exactly when its lower-cased title contains the lower-cased term and its category matches |
| `ListingSearch.FilterWildcard` | src/app/marketplace/MarketplaceClient.tsx:95-97 | an empty term with no selection or 'All' returns every listing, unchanged and in order |
| `ListingSearch.FilterCategoryExact` | src/app/marketplace/MarketplaceClient.tsx:96-97 | with a real category selected, every listing shown has exactly that category string |
| `ListingSearch.FilterAllIsNoSelection` | src/app/marketplace/MarketplaceClient.tsx:96 | a stored 'All' filters exactly like no selection |
| `ListingSearch.FilterIgnoresTermCase` | src/app/dashboard/listings/page.tsx:103 | lower-casing the search term does not change the result |
| `ListingSearch.FilterNarrowing` | src/app/marketplace/MarketplaceClient.tsx:95 | if the old term occurs in the new one, the new result is a subsequence of (so contained in) the old result |
| `Marketplace.SelectCategory` | src/app/marketplace/MarketplaceClient.tsx:167 | choosing 'All' stores no selection; any other option is stored as chosen |
| `Marketplace.SelectValue` | src/app/marketplace/MarketplaceClient.tsx:166 | the select shows 'All' when nothing is stored and is never blank |
| `Marketplace.SelectRoundTrip` | src/app/marketplace/MarketplaceClient.tsx:166-167 | after choosing any non-empty option, the select displays that option |
| `Marketplace.SelectKeepsFilter` | src/app/marketplace/MarketplaceClient.tsx:167 | filtering after choosing an option equals filtering by that option itself, 'All' included |
| `Marketplace.FilteredListings` | src/app/marketplace/MarketplaceClient.tsx:94-99 | the page shows an order-preserving subsequence of its four listings, and a listing is shown exactly when it passes the search and category rule |
| `Marketplace.CategoriesRoundTrip` | src/app/marketplace/MarketplaceClient.tsx:27-35 | every option of the category select, once chosen, is displayed again as the select's value |
| `Marketplace.EmptyStateExactly` | src/app/marketplace/MarketplaceClient.tsx:238 | 'No Listings Found' shows exactly when no listing passes the filter |
| `Marketplace.ListingClickRoute` | src/app/marketplace/MarketplaceClient.tsx:84-92 | no navigation while the session is loading; without a session, the login page with callback to the marketplace; otherwise a route from which the listing id is read back |
| `Marketplace.ListingRoutesDistinct` | src/app/marketplace/MarketplaceClient.tsx:88-90 | the login redirect is not a listing route, and distinct ids give distinct routes |
| `DashboardListings.IdsDistinct` | src/app/dashboard/listings/page.tsx:33-100 | the six mock listings have pairwise distinct ids |
| `DashboardListings.FilteredListings` | src/app/dashboard/listings/page.tsx:102-107 | the page shows an order-preserving subsequence of its six listings, and a listing is shown exactly when it passes the search and category rule |
| `DashboardListings.EmptySearchShowsAll` | src/app/dashboard/listings/page.tsx:102-107 | an empty term with no category shows all six listings |
| `DashboardListings.EmptyTermKeepsCategory` | src/app/dashboard/listings/page.tsx:103-105 | with an empty term, a listing is kept exactly when its category equals the selection |
| `DashboardListings.ElectronicsShowsHeadphones` | src/app/dashboard/listings/page.tsx:89-99 | 'Electronics' with an empty term shows exactly the listing with id '6' |
| `DashboardListings.CategoryMatchIsCaseSensitive` | src/app/dashboard/listings/page.tsx:104-105 | 'electronics' in lower case matches no listing |
| `MyListings.Flip` | src/app/dashboard/my-listings/page.tsx:55 | the toggle always changes the status |
| `MyListings.Deleted` | src/app/dashboard/my-listings/page.tsx:48-50 | keeps exactly the listings whose id differs from the argument, as an order-preserving subsequence |
| `MyListings.Toggled` | src/app/dashboard/my-listings/page.tsx:52-58 | same length; every field but status unchanged everywhere; status flipped exactly where the id matches |
| `MyListings.InitialIdsDistinct` | src/app/dashboard/my-listings/page.tsx:18-46 | the initial listings have distinct ids |
| `MyListings.DeleteAbsent` | src/app/dashboard/my-listings/page.tsx:49 | deleting an id no listing has leaves the list unchanged |
| `MyListings.DeletePresent` | src/app/dashboard/my-listings/page.tsx:49 | with distinct ids, deleting a present id removes that listing and shortens the list by exactly one |
| `MyListings.DeletePreservesIdsDistinct` | src/app/dashboard/my-listings/page.tsx:49 | deletion keeps ids distinct |
| `MyListings.ToggleTwice` | src/app/dashboard/my-listings/page.tsx:55 | toggling the same id twice restores the list |
| `MyListings.StepKeepsOriginals` | src/app/dashboard/my-listings/page.tsx:48-58 | one delete or toggle keeps ids distinct, never lengthens the list and changes no field but a status |
| `MyListings.RunKeepsOriginals` | src/app/dashboard/my-listings/page.tsx:48-58 | after any sequence of deletes and toggles: no longer than before, ids distinct, each listing an original one with at most its status changed |
| `MyListings.MyListingsPage.constructor` | src/app/dashboard/my-listings/page.tsx:18-46 | the page starts with the three mock listings, ids distinct |
| `MyListings.MyListingsPage.HandleDelete` | src/app/dashboard/my-listings/page.tsx:48-50 | the new state is `Deleted` of the old one; ids stay distinct |
| `MyListings.MyListingsPage.ToggleStatus` | src/app/dashboard/my-listings/page.tsx:52-58 | the new state is `Toggled` of the old one; ids stay distinct |
| `MyListings.MyListingsPage.ShowEmptyState` | src/app/dashboard/my-listings/page.tsx:163 | 'No Listings Yet' is shown exactly when the page holds no listing |
| `FormRules.UnijosEmailErrors` | src/app/signup/page.tsx:14-17 | an e-mail passes exactly when it ends with '@unijos.edu.ng'; an empty one gets only 'Email is required' |
| `FormRules.RequiredPhoneErrors` | src/app/dashboard/create-listing/page.tsx:39-41 | a phone passes exactly when it is 11 ASCII digits; an empty one gets only the required message |
| `Signup.FullNameErrors` | src/app/signup/page.tsx:11-13 | passes exactly when at least 3 characters; empty gets 'Full name is required' |
| `Signup.PrimaryPhoneErrors` | src/app/signup/page.tsx:18-20 | passes exactly when 11 digits |
| `Signup.SecondaryPhoneErrors` | src/app/signup/page.tsx:21-23 | passes exactly when absent or 11 digits |
| `Signup.PasswordErrors` | src/app/signup/page.tsx:24-29 | passes exactly when length >= 8 with a digit, a lower-case and an upper-case letter; each rule's message appears exactly when that rule fails |
| `Signup.ConfirmPasswordErrors` | src/app/signup/page.tsx:30-32 | passes exactly when non-empty and equal to the password |
| `Signup.SignupValid` | src/app/signup/page.tsx:10-33 | the form submits exactly when all six field conditions hold |
| `Signup.CountTrue` | src/app/signup/page.tsx:121 | the count is at most the length; it is the full length exactly when all are true, and 0 exactly when none is |
| `Signup.Score` | src/app/signup/page.tsx:114-121 | the score lies in 0..4; it is 4 exactly when the password meets the four schema rules, and 0 exactly when it meets none |
| `Signup.StrengthColor` | src/app/signup/page.tsx:122 | 'gray-500' exactly for score 0 (or beyond the palette), otherwise palette entry score-1 |
| `Signup.GreenExactlyWhenAccepted` | src/app/signup/page.tsx:121-122 | the meter is green exactly when the schema accepts the password |
| `Signup.BarWidthPercent` | src/app/signup/page.tsx:129 | the bar width is at most 100%, and full exactly when the schema accepts the password |
| `Signup.TickLabelsSwapped` | src/app/signup/page.tsx:135-147 | as written, the 'Lowercase' tick lights for "A" and the 'Uppercase' tick for "a" |
| `Signup.TickLit` | src/app/signup/page.tsx:135-147 | corrected: each tick is lit exactly when the check its label names holds |
| `Signup.CorrectedTicksKeepScore` | src/app/signup/page.tsx:121 | reordering the ticks to match their labels leaves the score unchanged |
| `Login.LoginPasswordErrors` | src/app/login/page.tsx:15-17 | passes exactly when at least 8 characters; empty gets 'Password is required' |
| `Login.LoginValid` | src/app/login/page.tsx:10-18 | only e-mail and password are checked: the form submits exactly when the e-mail has the UNIJOS suffix and the password has 8+ characters |
| `Login.SignupPasswordPassesLogin` | src/app/login/page.tsx:15-17 | every password signup accepts, login accepts |
| `Login.LoginPasswordRuleIsWeaker` | src/app/login/page.tsx:15-17 | 'aaaaaaaa' passes login but not signup |
| `Login.SignedUpUserCanLogIn` | src/app/login/page.tsx:10-18 | a valid signup form's e-mail and password pass login, and its password scores 4 |
| `CreateListing.TitleErrors` | src/app/dashboard/create-listing/page.tsx:28-30 | passes exactly when at least 5 characters; empty gets 'Title is required' |
| `CreateListing.DescriptionErrors` | src/app/dashboard/create-listing/page.tsx:31-33 | passes exactly when at least 20 characters |
| `CreateListing.CategoryErrors` | src/app/dashboard/create-listing/page.tsx:34-35 | passes exactly when non-empty |
| `CreateListing.OfferedCategoriesAccepted` | src/app/dashboard/create-listing/page.tsx:49-56 | each of the six offered category values passes |
| `CreateListing.PriceErrors` | src/app/dashboard/create-listing/page.tsx:36-38 | passes exactly when a price is given and is not negative |
| `CreateListing.PhoneErrors` | src/app/dashboard/create-listing/page.tsx:39-41 | passes exactly when 11 digits |
| `CreateListing.LocationErrors` | src/app/dashboard/create-listing/page.tsx:42-43 | passes exactly when non-empty |
| `CreateListing.ImagesErrors` | src/app/dashboard/create-listing/page.tsx:44-46 | passes exactly when there are 1 to 5 images |
| `CreateListing.ListingValid` | src/app/dashboard/create-listing/page.tsx:27-47 | the form submits exactly when all seven field conditions hold |
| `CreateListing.SelectImages` | src/app/dashboard/create-listing/page.tsx:66-76 | keeps the first min(n, 5) files in order, one preview URL per kept file; the result passes the image rule exactly when at least one file was chosen |
| `CreateListing.CreateListingPage.constructor` | src/app/dashboard/create-listing/page.tsx:59 | no previews and no images at first |
| `CreateListing.CreateListingPage.HandleImageUpload` | src/app/dashboard/create-listing/page.tsx:61-80 | no file list changes nothing; otherwise the new selection replaces the old one; previews and images stay equal in number, at most 5 |
| `CreateListing.CreateListingPage.ShowAddImageTile` | src/app/dashboard/create-listing/page.tsx:242 | the "Add Image" tile is offered exactly while fewer than five images are selected, since previews and images stay equal in number |
| `Home.NextIndex` | src/app/page.tsx:137 | next stays within the slides and equals (i + 1) mod 3 |
| `Home.PrevIndex` | src/app/page.tsx:142 | previous stays within the slides and equals (i + 2) mod 3 |
| `Home.NextPrevInverse` | src/app/page.tsx:135-143 | next then previous, and previous then next, return to the same slide |
| `Home.NextTimesIsModular` | src/app/page.tsx:137 | n presses of next advance by n modulo the number of slides |
| `Home.FullCycle` | src/app/page.tsx:137 | three presses of next return to the starting slide |
| `Home.ProductClickTarget` | src/app/page.tsx:145-150 | the click goes to '/signup' exactly when the visitor is not signed in |
| `Home.HomePage.constructor` | src/app/page.tsx:131-133 | slide 0, direction 0, not signed in |
| `Home.HomePage.NextSlide` | src/app/page.tsx:135-138 | direction becomes 1, the slide advances with wrap-around, the state stays valid |
| `Home.HomePage.PrevSlide` | src/app/page.tsx:140-143 | direction becomes -1, the slide goes back with wrap-around, the state stays valid |
| `Home.HomePage.HandleProductClick` | src/app/page.tsx:145-150 | every product click leads to '/signup', since the sign-in flag is never set |
| `Home.HomePage.CurrentSlide` | src/app/page.tsx:234-237 | the slide shown is always one of the three slides |
| `DashboardLayout.IsActive` | src/app/components/DashboardLayout.tsx:41 | an item is highlighted exactly when its href equals the path, with no prefix matching (also line 71 for the mobile bar) |
| `DashboardLayout.FindIndex` | src/app/components/DashboardLayout.tsx:87 | the first position whose href equals the path, or none exactly when no href equals it |
| `DashboardLayout.Find` | src/app/components/DashboardLayout.tsx:87 | the item found is the first nav item whose href equals the path; none exactly when no item matches |
| `DashboardLayout.HeaderTitle` | src/app/components/DashboardLayout.tsx:87 | the title is never empty; it is 'Dashboard' when no item matches, and otherwise the first matching item's name, or 'Dashboard' when that name is empty |
| `DashboardLayout.TitleOfItem` | src/app/components/DashboardLayout.tsx:87 | with distinct hrefs, each item's own path shows that item's name as the title |
| `DashboardLayout.TitleFallback` | src/app/components/DashboardLayout.tsx:87 | a path that no item links to gets the title 'Dashboard' |
| `DashboardLayout.AtMostOneActive` | src/app/components/DashboardLayout.tsx:41 | with distinct hrefs at most one item is highlighted |
| `DashboardLayout.NavHrefsDistinct` | src/app/components/DashboardLayout.tsx:11-17 | the five nav hrefs are distinct |
| `DashboardLayout.MobileItems` | src/app/components/DashboardLayout.tsx:66 | the mobile bar shows the first four items in order, none of them 'Settings' |
| `DashboardLayout.SettingsPath` | src/app/components/DashboardLayout.tsx:71 | on '/dashboard/profile/edit' the title is 'Settings' and 'Profile' is not highlighted (exact match, no prefix match) |
| `About.Split` | src/app/about/page.tsx:273 | `split(' ')` yields at least one piece and no piece contains a space |
| `About.SplitJoinRoundTrip` | src/app/about/page.tsx:273 | joining the pieces with single spaces gives back the name |
| `About.InitialsLength` | src/app/about/page.tsx:273 | the initials have one character per non-empty piece; empty pieces contribute nothing |
| `About.WordStarts` | src/app/about/page.tsx:273 | reference definition: the non-space characters of the name that come first or right after a space |
| `About.WordStartsSplit` | src/app/about/page.tsx:273 | the initials of the pieces equal the word starts of the name |
| `About.InitialsAreWordStarts` | src/app/about/page.tsx:273 | the initials are exactly the characters that start a word, in order |
| `About.TwoWordInitials` | src/app/about/page.tsx:273 | a name of two words separated by one space has those two first letters as initials |
| `About.TeamInitials` | src/app/about/page.tsx:262-273 | the three team cards show 'JD', 'JS' and 'MJ' |

## Findings

| source | as written | input that shows it | evidently intended | confidence | as-written member | corrected member |
|---|---|---|---|---|---|---|
| src/app/signup/page.tsx:114-147 | tick i is lit by the i-th value of the `strength` object (length, number, uppercase, lowercase), while the labels read '8+ chars', 'Number', 'Lowercase', 'Uppercase' | password "A": the 'Lowercase' tick lights although there is no lower-case letter (and "a" lights 'Uppercase') | each tick is lit by the check its label names | high (not executed) | `Signup.TickLabelsSwapped` | `Signup.TickLit` |

## Left out

- Animation is not modelled: motion variants, floating orbs and shapes, confetti and particle bursts. They use randomness and floating-point trigonometry.
- Simulated submission is not modelled: the fixed delays, success screens, `window.location.href` and `router.push` effects. Where a click chooses a destination, the model returns that destination as a value (`Marketplace.ListingClickRoute`, `Home.ProductClickTarget`).
- FormRules.UnijosEmailErrors: the form library's built-in e-mail format check (`.email()`) is not modelled, because its definition is not visible here. The model therefore accepts every string with the UNIJOS suffix, a superset of what the page accepts. The same holds for `Signup.SignupValid`, `Login.LoginValid` and `Login.SignedUpUserCanLogIn`.
- The order of messages within a field follows the schema's declaration order. That is the form library's behaviour, assumed here rather than modelled from its code.
- CreateListing.PriceErrors: the price is an optional integer. Fractional prices and non-numeric input casts are not modelled (floating point).
- Session state (`useSession`) is an input to `Marketplace.ListingClickRoute`. `signOut` is not modelled.
- `URL.createObjectURL` is a function parameter of `CreateListing.SelectImages`, so each file's URL is determined by the file. The real call returns a fresh URL on every call.
- Lower-casing covers ASCII only. Lengths count Unicode scalar values, whereas JavaScript counts UTF-16 code units. The two agree on the ASCII inputs the pages expect.
- The my-listings status is a two-valued type, so "every status is 'sold' or 'unsold' after any actions" holds by typing. `MyListings.RunKeepsOriginals` states the stronger invariant instead.
- The handlers' stale-closure behaviour is not modelled. Each my-listings handler reads the `listings` captured at render, so rapid successive clicks could be lost. The model applies actions one after another.
- The home page's product catalogue is not modelled. Only the product id enters the model, through `Home.ProductClickTarget`.
- The dashboard overview (sell-through percentage), profile pages, header, listing card, layout and configuration files are presentational, or use floating point and locale formatting. They are not part of this model.
