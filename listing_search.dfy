/**
  The listing search rule shared by the marketplace page and the dashboard's
  "All Listings" page: a listing is shown when its lower-cased title contains the
  lower-cased search term and its category matches the selected category, where
  no selection (and 'All') matches every category.
*/
module ListingSearch {
  import opened Wrappers
  import opened Seqs
  import opened Text

  datatype Status = Available | Sold

  /** A listing as both browsing pages declare it. */
  datatype Listing = Listing(
    id: string,
    title: string,
    price: int,
    status: Status,
    image: string,
    category: string,
    location: string,
    phone: string,
    postedDate: string)

  /** The lower-cased title contains the lower-cased search term. */
  predicate MatchesSearch(l: Listing, term: string)
  {
    Contains(Lower(l.title), Lower(term))
  }

  /**
    No selection, 'All', or a category equal to the listing's own lets the listing
    through; an empty selection counts as no selection, as in JavaScript's truth test.
  */
  predicate MatchesCategory(l: Listing, selected: Option<string>)
  {
    match selected
    case None => true
    case Some(c) => c == "" || c == "All" || l.category == c
  }

  predicate Keep(l: Listing, term: string, selected: Option<string>)
  {
    MatchesSearch(l, term) && MatchesCategory(l, selected)
  }

  /** The listings shown for a search term and a category selection. */
  function FilterListings(listings: seq<Listing>, term: string, selected: Option<string>): (r: seq<Listing>)
    ensures IsSubsequence(r, listings)
    ensures forall i :: 0 <= i < |r| ==> r[i] in listings && Keep(r[i], term, selected)
    ensures forall i :: 0 <= i < |listings| && Keep(listings[i], term, selected) ==> listings[i] in r
  {
    Filter(listings, l => Keep(l, term, selected))
  }

  /** An empty term with no effective category selection shows every listing. */
  lemma FilterWildcard(listings: seq<Listing>, selected: Option<string>)
    requires selected == None || selected == Some("All")
    ensures FilterListings(listings, "", selected) == listings
  {
    forall l | l in listings ensures Keep(l, "", selected) {
      ContainsEmpty(Lower(l.title));
    }
    FilterKeepsAll(listings, l => Keep(l, "", selected));
  }

  /** With a real category selected, every listing shown has exactly that category. */
  lemma FilterCategoryExact(listings: seq<Listing>, term: string, c: string)
    requires c != "" && c != "All"
    ensures forall l :: l in FilterListings(listings, term, Some(c)) ==> l.category == c
  {
  }

  /** A stored 'All' and no selection at all filter identically. */
  lemma FilterAllIsNoSelection(listings: seq<Listing>, term: string)
    ensures FilterListings(listings, term, Some("All")) == FilterListings(listings, term, None)
  {
    FilterCongruent(listings, l => Keep(l, term, Some("All")), l => Keep(l, term, None));
  }

  /** The title match ignores the case of the search term. */
  lemma FilterIgnoresTermCase(listings: seq<Listing>, term: string, selected: Option<string>)
    ensures FilterListings(listings, Lower(term), selected) == FilterListings(listings, term, selected)
  {
    LowerIdempotent(term);
    FilterCongruent(listings, l => Keep(l, Lower(term), selected), l => Keep(l, term, selected));
  }

  /**
    Typing more characters can only narrow the result: when the old term occurs in
    the new one, the new result is a subsequence of the old one.
  */
  lemma FilterNarrowing(listings: seq<Listing>, shorter: string, longer: string, selected: Option<string>)
    requires Contains(longer, shorter)
    ensures IsSubsequence(FilterListings(listings, longer, selected), FilterListings(listings, shorter, selected))
    ensures forall l :: l in FilterListings(listings, longer, selected) ==> l in FilterListings(listings, shorter, selected)
  {
    forall l | l in listings && Keep(l, longer, selected) ensures Keep(l, shorter, selected) {
      ContainsLower(longer, shorter);
      ContainsTransitive(Lower(l.title), Lower(longer), Lower(shorter));
    }
    FilterMonotone(listings, l => Keep(l, longer, selected), l => Keep(l, shorter, selected));
  }
}
