/**
  The about page's team cards: each avatar shows the member's initials, the
  first character of every piece of the name split at single spaces.
*/
module About {

  /** The pieces of `s` between single spaces, with an empty piece wherever two spaces are adjacent. */
  function Split(s: string): (parts: seq<string>)
    ensures |parts| >= 1
    ensures forall i :: 0 <= i < |parts| ==> ' ' !in parts[i]
  {
    if s == [] then [""]
    else
      var rest := Split(s[1..]);
      if s[0] == ' ' then [""] + rest
      else [[s[0]] + rest[0]] + rest[1..]
  }

  /** The pieces glued back together with one space between neighbours. */
  function JoinWithSpace(parts: seq<string>): string
  {
    if parts == [] then ""
    else if |parts| == 1 then parts[0]
    else parts[0] + " " + JoinWithSpace(parts[1..])
  }

  /** Joining the pieces with spaces gives back the name. */
  lemma {:induction false} SplitJoinRoundTrip(s: string)
    ensures JoinWithSpace(Split(s)) == s
  {
    if s != [] {
      var rest := Split(s[1..]);
      SplitJoinRoundTrip(s[1..]);
      if s[0] == ' ' {
        assert Split(s)[1..] == rest;
        assert s == " " + s[1..];
      } else {
        var parts := Split(s);
        assert parts[1..] == rest[1..];
        if |rest| == 1 {
          assert s == [s[0]] + rest[0];
        } else {
          assert JoinWithSpace(rest) == rest[0] + " " + JoinWithSpace(rest[1..]);
          assert s == [s[0]] + (rest[0] + " " + JoinWithSpace(rest[1..]));
        }
      }
    }
  }

  /** `n[0]` joined into a string: the first character, or nothing for an empty piece. */
  function FirstChar(part: string): string
  {
    if part == "" then "" else [part[0]]
  }

  /** The first characters of the pieces, in order; an empty piece contributes nothing. */
  function InitialsOf(parts: seq<string>): string
  {
    if parts == [] then "" else FirstChar(parts[0]) + InitialsOf(parts[1..])
  }

  function Initials(name: string): string
  {
    InitialsOf(Split(name))
  }

  function CountNonEmpty(parts: seq<string>): nat
  {
    if parts == [] then 0 else (if parts[0] != "" then 1 else 0) + CountNonEmpty(parts[1..])
  }

  /** One character per non-empty piece; empty pieces contribute nothing. */
  lemma {:induction false} InitialsLength(parts: seq<string>)
    ensures |InitialsOf(parts)| == CountNonEmpty(parts)
  {
    if parts != [] {
      InitialsLength(parts[1..]);
    }
  }

  /**
    Reference definition: the characters of `s` that are not spaces and start a
    word, that is, come first or right after a space.
  */
  function WordStarts(s: string, afterSpace: bool): (r: string)
    ensures forall i :: 0 <= i < |r| ==> r[i] != ' ' && r[i] in s
  {
    if s == [] then ""
    else (if s[0] != ' ' && afterSpace then [s[0]] else "") + WordStarts(s[1..], s[0] == ' ')
  }

  lemma {:induction false} WordStartsSplit(s: string)
    ensures WordStarts(s, true) == InitialsOf(Split(s))
    ensures WordStarts(s, false) == InitialsOf(Split(s)[1..])
  {
    if s != [] {
      WordStartsSplit(s[1..]);
      var rest := Split(s[1..]);
      if s[0] == ' ' {
        assert Split(s) == [""] + rest;
        assert Split(s)[1..] == rest;
      } else {
        var parts := Split(s);
        assert parts[0] == [s[0]] + rest[0] && parts[1..] == rest[1..];
      }
    }
  }

  /** The initials are exactly the characters that start a word of the name. */
  lemma InitialsAreWordStarts(name: string)
    ensures Initials(name) == WordStarts(name, true)
  {
    WordStartsSplit(name);
  }

  /** Inside a word no character starts a word. */
  lemma {:induction false} SkipWord(w: string, rest: string)
    requires ' ' !in w
    ensures WordStarts(w + rest, false) == WordStarts(rest, false)
  {
    if w == [] {
      assert w + rest == rest;
    } else {
      assert (w + rest)[0] == w[0] && w[0] in w;
      assert (w + rest)[1..] == w[1..] + rest;
      assert forall c :: c in w[1..] ==> c in w;
      SkipWord(w[1..], rest);
    }
  }

  /** A two-word name, words separated by one space, has the two first letters as initials. */
  lemma TwoWordInitials(first: string, last: string)
    requires first != "" && last != "" && ' ' !in first && ' ' !in last
    ensures Initials(first + " " + last) == [first[0], last[0]]
  {
    var name := first + " " + last;
    InitialsAreWordStarts(name);
    assert name[1..] == first[1..] + (" " + last);
    SkipWord(first[1..], " " + last);
    assert (" " + last)[1..] == last;
    SkipWord(last[1..], "");
    assert last[1..] + "" == last[1..];
  }

  /** The three team cards show 'JD', 'JS' and 'MJ'. */
  lemma TeamInitials()
    ensures Initials("John Doe") == "JD"
    ensures Initials("Jane Smith") == "JS"
    ensures Initials("Mike Johnson") == "MJ"
  {
    assert "John Doe" == "John" + " " + "Doe";
    TwoWordInitials("John", "Doe");
    assert "Jane Smith" == "Jane" + " " + "Smith";
    TwoWordInitials("Jane", "Smith");
    assert "Mike Johnson" == "Mike" + " " + "Johnson";
    TwoWordInitials("Mike", "Johnson");
  }
}
