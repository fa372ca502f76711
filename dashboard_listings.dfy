/** The dashboard's "All Listings" page: the shared search rule over six mock listings. */
module DashboardListings {
  import opened Wrappers
  import opened Seqs
  import opened Text
  import opened ListingSearch

  const Listings: seq<Listing> := [
    Listing("1", "Calculus Textbook 4th Edition", 5000, Available, "/placeholder-book.jpg",
            "Books", "Faculty of Science Block A", "08012345678", "2023-05-15"),
    Listing("2", "iPhone 12 Pro Max", 250000, Sold, "/placeholder-phone.jpg",
            "Phones", "Student Union Building", "08087654321", "2023-04-20"),
    Listing("3", "Guitar with case", 35000, Available, "/placeholder-guitar.jpg",
            "Music", "Arts Department", "08011223344", "2023-06-01"),
    Listing("4", "Desk Lamp", 8000, Available, "/placeholder-lamp.jpg",
            "Home Goods", "Hostel Block C", "08055667788", "2023-06-10"),
    Listing("5", "Laptop Bag", 12000, Available, "/placeholder-bag.jpg",
            "Other", "Library", "08099887766", "2023-06-05"),
    Listing("6", "Wireless Headphones", 18000, Available, "/placeholder-headphones.jpg",
            "Electronics", "Engineering Complex", "08044332211", "2023-06-12")
  ]

  /** The listings the page shows: the six mock listings that pass the filter, in their order. */
  function FilteredListings(term: string, selected: Option<string>): (r: seq<Listing>)
    ensures IsSubsequence(r, Listings)
    ensures forall i :: 0 <= i < |r| ==> Keep(r[i], term, selected)
    ensures forall i :: 0 <= i < |Listings| ==> (Listings[i] in r <==> Keep(Listings[i], term, selected))
  {
    FilterListings(Listings, term, selected)
  }

  lemma IdsDistinct()
    ensures forall i, j :: 0 <= i < j < |Listings| ==> Listings[i].id != Listings[j].id
  {
  }

  /** With an empty term and no category the page lists all six listings. */
  lemma EmptySearchShowsAll()
    ensures FilteredListings("", None) == Listings
    ensures |FilteredListings("", None)| == 6
  {
    FilterWildcard(Listings, None);
  }

  /** With an empty term every listing passes the search, so only the category decides. */
  lemma EmptyTermKeepsCategory(l: Listing, c: string)
    requires c != "" && c != "All"
    ensures Keep(l, "", Some(c)) <==> l.category == c
  {
    ContainsEmpty(Lower(l.title));
  }

  /** 'Electronics' with an empty term shows exactly the headphones (id '6'). */
  lemma ElectronicsShowsHeadphones()
    ensures FilteredListings("", Some("Electronics")) == [Listings[5]]
    ensures FilteredListings("", Some("Electronics"))[0].id == "6"
  {
    forall j | 0 <= j < |Listings| ensures Keep(Listings[j], "", Some("Electronics")) <==> j == 5 {
      EmptyTermKeepsCategory(Listings[j], "Electronics");
    }
    FilterSingle(Listings, l => Keep(l, "", Some("Electronics")), 5);
  }

  /** The category comparison is case-sensitive: 'electronics' matches no listing. */
  lemma CategoryMatchIsCaseSensitive()
    ensures FilteredListings("", Some("electronics")) == []
  {
    forall j | 0 <= j < |Listings| ensures !Keep(Listings[j], "", Some("electronics")) {
      EmptyTermKeepsCategory(Listings[j], "electronics");
      assert Listings[j].category != "electronics" by {
        if j == 5 { assert Listings[5].category[0] != "electronics"[0]; }
      }
    }
  }
}
