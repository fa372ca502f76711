/**
  The "My Listings" page: the user's own listings held in page state, with a
  delete button and a sold/unsold toggle per listing. Each action replaces the
  list by a filtered or mapped copy of it.
*/
module MyListings {
  import opened Seqs

  datatype Status = Sold | Unsold

  /** A listing as this page declares it (no location or phone). */
  datatype OwnListing = OwnListing(
    id: string,
    title: string,
    price: int,
    status: Status,
    image: string,
    category: string,
    postedDate: string)

  const InitialListings: seq<OwnListing> := [
    OwnListing("1", "Calculus Textbook 4th Edition", 5000, Unsold, "/placeholder-book.jpg", "books", "2023-05-15"),
    OwnListing("2", "iPhone 12 Pro Max", 250000, Sold, "/placeholder-phone.jpg", "phones", "2023-04-20"),
    OwnListing("3", "Guitar with case", 35000, Unsold, "/placeholder-guitar.jpg", "music", "2023-06-01")
  ]

  ghost predicate IdsDistinct(ls: seq<OwnListing>)
  {
    forall i, j :: 0 <= i < j < |ls| ==> ls[i].id != ls[j].id
  }

  /** 'sold' becomes 'unsold' and anything else becomes 'sold'. */
  function Flip(s: Status): (r: Status)
    ensures r != s
  {
    if s == Sold then Unsold else Sold
  }

  /** The list after a delete: every listing whose id differs from the deleted one, in order. */
  function Deleted(ls: seq<OwnListing>, id: string): (r: seq<OwnListing>)
    ensures IsSubsequence(r, ls)
    ensures forall i :: 0 <= i < |r| ==> r[i] in ls && r[i].id != id
    ensures forall i :: 0 <= i < |ls| && ls[i].id != id ==> ls[i] in r
  {
    Filter(ls, (l: OwnListing) => l.id != id)
  }

  /** `toggleStatus`'s new list: the listing with that id has its status flipped. */
  function Toggled(ls: seq<OwnListing>, id: string): (r: seq<OwnListing>)
    ensures |r| == |ls|
    ensures forall i :: 0 <= i < |ls| ==> r[i].(status := ls[i].status) == ls[i]
    ensures forall i :: 0 <= i < |ls| ==> r[i].status == if ls[i].id == id then Flip(ls[i].status) else ls[i].status
  {
    seq(|ls|, i requires 0 <= i < |ls| =>
      if ls[i].id == id then ls[i].(status := Flip(ls[i].status)) else ls[i])
  }

  lemma InitialIdsDistinct()
    ensures IdsDistinct(InitialListings)
  {
  }

  /** Deleting an id that no listing has leaves the list unchanged. */
  lemma DeleteAbsent(ls: seq<OwnListing>, id: string)
    requires forall l :: l in ls ==> l.id != id
    ensures Deleted(ls, id) == ls
  {
    FilterKeepsAll(ls, (l: OwnListing) => l.id != id);
  }

  /** With distinct ids, deleting the id of a listing removes that listing and nothing else. */
  lemma DeletePresent(ls: seq<OwnListing>, k: nat)
    requires IdsDistinct(ls) && k < |ls|
    ensures |Deleted(ls, ls[k].id)| == |ls| - 1
    ensures ls[k] !in Deleted(ls, ls[k].id)
  {
    FilterDropsOne(ls, (l: OwnListing) => l.id != ls[k].id, k);
  }

  /** A subsequence of a list with distinct ids has distinct ids. */
  lemma {:induction false} SubsequenceIdsDistinct(r: seq<OwnListing>, s: seq<OwnListing>)
    requires IsSubsequence(r, s) && IdsDistinct(s)
    ensures IdsDistinct(r)
  {
    if s != [] {
      assert IdsDistinct(s[1..]);
      if r != [] && r[0] == s[0] && IsSubsequence(r[1..], s[1..]) {
        SubsequenceIdsDistinct(r[1..], s[1..]);
        SubsequenceMembers(r[1..], s[1..]);
        forall j | 0 < j < |r| ensures r[0].id != r[j].id {
          assert r[j] == r[1..][j - 1];
          assert r[j] in r[1..];
          var m :| 0 <= m < |s[1..]| && s[1..][m] == r[j];
          assert s[m + 1] == r[j];
        }
      } else {
        SubsequenceIdsDistinct(r, s[1..]);
      }
    }
  }

  lemma DeletePreservesIdsDistinct(ls: seq<OwnListing>, id: string)
    requires IdsDistinct(ls)
    ensures IdsDistinct(Deleted(ls, id))
  {
    SubsequenceIdsDistinct(Deleted(ls, id), ls);
  }

  /** Toggling the same id twice restores the original list. */
  lemma ToggleTwice(ls: seq<OwnListing>, id: string)
    ensures Toggled(Toggled(ls, id), id) == ls
  {
    var once := Toggled(ls, id);
    var twice := Toggled(once, id);
    forall i | 0 <= i < |ls| ensures twice[i] == ls[i] {
      assert once[i].id == ls[i].id;
    }
  }

  /** The page's two actions. */
  datatype Action = Delete(id: string) | Toggle(id: string)

  function Step(ls: seq<OwnListing>, a: Action): seq<OwnListing>
  {
    match a
    case Delete(id) => Deleted(ls, id)
    case Toggle(id) => Toggled(ls, id)
  }

  function Run(ls: seq<OwnListing>, actions: seq<Action>): seq<OwnListing>
    decreases |actions|
  {
    if actions == [] then ls else Run(Step(ls, actions[0]), actions[1..])
  }

  /** `l` is the listing `o` with, at most, a different status. */
  ghost predicate SameExceptStatus(o: OwnListing, l: OwnListing)
  {
    o.(status := l.status) == l
  }

  /** `l` is some listing of `ls` with, at most, a different status. */
  ghost predicate DescendsFrom(l: OwnListing, ls: seq<OwnListing>)
  {
    exists o :: o in ls && SameExceptStatus(o, l)
  }

  /** One delete or toggle keeps the ids distinct, never lengthens the list, and changes no field but a status. */
  lemma StepKeepsOriginals(ls: seq<OwnListing>, a: Action)
    requires IdsDistinct(ls)
    ensures |Step(ls, a)| <= |ls|
    ensures IdsDistinct(Step(ls, a))
    ensures forall l :: l in Step(ls, a) ==> DescendsFrom(l, ls)
  {
    var next := Step(ls, a);
    match a
    case Delete(id) =>
      DeletePreservesIdsDistinct(ls, id);
      SubsequenceMembers(next, ls);
      forall l | l in next ensures DescendsFrom(l, ls) {
        assert SameExceptStatus(l, l);
      }
    case Toggle(id) =>
      forall l | l in next ensures DescendsFrom(l, ls) {
        var i :| 0 <= i < |next| && next[i] == l;
        assert ls[i] in ls && SameExceptStatus(ls[i], l);
      }
  }

  lemma DescendsTransitive(l: OwnListing, mid: seq<OwnListing>, ls: seq<OwnListing>)
    requires DescendsFrom(l, mid)
    requires forall m :: m in mid ==> DescendsFrom(m, ls)
    ensures DescendsFrom(l, ls)
  {
    var m :| m in mid && SameExceptStatus(m, l);
    var o :| o in ls && SameExceptStatus(o, m);
    assert SameExceptStatus(o, l);
  }

  /**
    After any sequence of deletes and toggles the list is no longer, its ids are
    still distinct, and every listing in it is an original listing whose status
    alone may have changed.
  */
  lemma {:induction false} RunKeepsOriginals(ls: seq<OwnListing>, actions: seq<Action>)
    requires IdsDistinct(ls)
    ensures |Run(ls, actions)| <= |ls|
    ensures IdsDistinct(Run(ls, actions))
    ensures forall l :: l in Run(ls, actions) ==> DescendsFrom(l, ls)
    decreases |actions|
  {
    if actions == [] {
      forall l | l in ls ensures DescendsFrom(l, ls) {
        assert SameExceptStatus(l, l);
      }
    } else {
      var next := Step(ls, actions[0]);
      StepKeepsOriginals(ls, actions[0]);
      RunKeepsOriginals(next, actions[1..]);
      forall l | l in Run(ls, actions) ensures DescendsFrom(l, ls) {
        DescendsTransitive(l, next, ls);
      }
    }
  }

  /** The page: its `listings` state and the two handlers that replace it. */
  class MyListingsPage {
    var listings: seq<OwnListing>

    ghost predicate Valid()
      reads this
    {
      IdsDistinct(listings)
    }

    constructor ()
      ensures Valid() && listings == InitialListings
    {
      listings := InitialListings;
    }

    method HandleDelete(id: string)
      requires Valid()
      modifies this
      ensures Valid()
      ensures listings == Deleted(old(listings), id)
    {
      DeletePreservesIdsDistinct(listings, id);
      listings := Deleted(listings, id);
    }

    method ToggleStatus(id: string)
      requires Valid()
      modifies this
      ensures Valid()
      ensures listings == Toggled(old(listings), id)
    {
      listings := Toggled(listings, id);
    }

    /** 'No Listings Yet' is shown exactly when the list is empty. */
    predicate ShowEmptyState()
      reads this
    {
      |listings| == 0
    }
  }
}
