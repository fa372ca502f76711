/**
  The marketplace page: four mock listings filtered by the shared search rule,
  the category select (which stores no selection for 'All'), the routing choice
  made when a listing is clicked, and the empty-state block.
*/
module Marketplace {
  import opened Wrappers
  import opened Seqs
  import opened Text
  import opened ListingSearch

  /** The options of the category select, in display order. */
  const Categories: seq<string> := ["All", "Books", "Electronics", "Music", "Phones", "Home Goods", "Other"]

  const Listings: seq<Listing> := [
    Listing("1", "Calculus Textbook 4th Edition", 5000, Available, "/placeholder-book.jpg",
            "Books", "Faculty of Science Block A", "08012345678", "2023-05-15"),
    Listing("2", "iPhone 12 Pro Max", 250000, Sold, "/placeholder-phone.jpg",
            "Phones", "Student Union Building", "08087654321", "2023-04-20"),
    Listing("3", "Guitar with case", 35000, Available, "/placeholder-guitar.jpg",
            "Music", "Arts Department", "08011223344", "2023-06-01"),
    Listing("4", "Desk Lamp", 8000, Available, "/placeholder-lamp.jpg",
            "Home Goods", "Hostel Block C", "08055667788", "2023-06-10")
  ]

  /** The select's change handler: choosing 'All' stores no selection, anything else is stored as is. */
  function SelectCategory(value: string): (selected: Option<string>)
    ensures selected == None <==> value == "All"
    ensures selected != None ==> selected.value == value
  {
    if value == "All" then None else Some(value)
  }

  /** The select's displayed value, `selectedCategory || 'All'`. */
  function SelectValue(selected: Option<string>): (value: string)
    ensures value != ""
    ensures selected == None ==> value == "All"
  {
    match selected
    case None => "All"
    case Some(c) => if c == "" then "All" else c
  }

  /** Choosing any non-empty option shows that same option as the select's value. */
  lemma SelectRoundTrip(value: string)
    requires value != ""
    ensures SelectValue(SelectCategory(value)) == value
  {
  }

  /** Storing no selection for 'All' does not change what is shown: selecting `value` filters as `Some(value)` would. */
  lemma SelectKeepsFilter(listings: seq<Listing>, term: string, value: string)
    ensures FilterListings(listings, term, SelectCategory(value)) == FilterListings(listings, term, Some(value))
  {
    if value == "All" {
      FilterAllIsNoSelection(listings, term);
    }
  }

  /** Every option of the select, once chosen, is shown again as the select's value. */
  lemma CategoriesRoundTrip()
    ensures forall i :: 0 <= i < |Categories| ==> SelectValue(SelectCategory(Categories[i])) == Categories[i]
  {
    forall i | 0 <= i < |Categories|
      ensures SelectValue(SelectCategory(Categories[i])) == Categories[i]
    {
      SelectRoundTrip(Categories[i]);
    }
  }

  /** The listings the page shows: the four mock listings that pass the filter, in their order. */
  function FilteredListings(term: string, selected: Option<string>): (r: seq<Listing>)
    ensures IsSubsequence(r, Listings)
    ensures forall i :: 0 <= i < |r| ==> Keep(r[i], term, selected)
    ensures forall i :: 0 <= i < |Listings| ==> (Listings[i] in r <==> Keep(Listings[i], term, selected))
  {
    FilterListings(Listings, term, selected)
  }

  /** 'No Listings Found' is shown exactly when no listing passes the filter. */
  lemma EmptyStateExactly(term: string, selected: Option<string>)
    ensures |FilteredListings(term, selected)| == 0 <==> forall l :: l in Listings ==> !Keep(l, term, selected)
  {
    if |FilteredListings(term, selected)| != 0 {
      assert FilteredListings(term, selected)[0] in Listings;
    }
  }

  /** Session status as reported by the authentication library; an input here. */
  datatype SessionStatus = Loading | Authenticated | Unauthenticated

  const LoginRedirect: string := "/login?callbackUrl=/marketplace"
  const ListingRoutePrefix: string := "/listings/"

  /**
    `handleListingClick`: nowhere while the session is loading, the login page
    (returning to the marketplace) without a session, the listing's page otherwise.
  */
  function ListingClickRoute(status: SessionStatus, hasSession: bool, id: string): (route: Option<string>)
    ensures route == None <==> status == Loading
    ensures route != None && !hasSession ==> route.value == LoginRedirect
    ensures route != None && hasSession ==> ListingIdOfRoute(route.value) == Some(id)
  {
    if status == Loading then None
    else if !hasSession then Some(LoginRedirect)
    else Some(ListingRoutePrefix + id)
  }

  /** The listing id a `/listings/<id>` route names, if it is such a route. */
  function ListingIdOfRoute(route: string): Option<string>
  {
    if |ListingRoutePrefix| <= |route| && route[..|ListingRoutePrefix|] == ListingRoutePrefix
    then Some(route[|ListingRoutePrefix|..])
    else None
  }

  /** The login redirect is never mistaken for a listing page, and distinct listings get distinct routes. */
  lemma ListingRoutesDistinct(status: SessionStatus, id1: string, id2: string)
    requires status != Loading
    ensures ListingIdOfRoute(LoginRedirect) == None
    ensures id1 != id2 ==> ListingClickRoute(status, true, id1) != ListingClickRoute(status, true, id2)
  {
    assert LoginRedirect[2] != ListingRoutePrefix[2];
  }
}
