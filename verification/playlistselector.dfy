/** The search filter of `app/components/PlaylistSelector.tsx`: the user's
    playlists narrowed to those whose name or description contains the
    search term, ignoring letter case. */
module PlaylistSelector {

  import opened Strings
  import opened Collections
  import opened Types

  /** The filter callback: the lower-cased term occurs in the lower-cased
      name, or in the lower-cased description when there is one (an empty
      description is falsy and is not searched). The term is not trimmed. */
  predicate Matches(term: string, p: Playlist) {
    Contains(Lower(p.name), Lower(term))
    || (p.description != "" && Contains(Lower(p.description), Lower(term)))
  }

  /** The effect on `[searchTerm, playlists]`: a blank term (empty after
      `trim`) shows every playlist, any other term the matching ones. */
  function FilterPlaylists(ps: seq<Playlist>, term: string): (r: seq<Playlist>)
    ensures Subsequence(r, ps)
  {
    if Trim(term) == [] then
      SubsequenceRefl(ps);
      ps
    else
      SelectSubsequence(ps, p => Matches(term, p), true);
      Select(ps, p => Matches(term, p), true)
  }

  lemma {:induction false} SubsequenceRefl<T>(xs: seq<T>)
    ensures Subsequence(xs, xs)
  {
    if |xs| > 0 {
      SubsequenceRefl(xs[1..]);
    }
  }

  /** A term of white space only, the empty term included, keeps the whole
      list; any other term keeps each matching playlist as often as it
      occurs and drops every other one. */
  lemma FilterSpec(ps: seq<Playlist>, term: string)
    ensures AllWhiteSpace(term) ==> FilterPlaylists(ps, term) == ps
    ensures !AllWhiteSpace(term) ==> forall p ::
      multiset(FilterPlaylists(ps, term))[p] == if Matches(term, p) then multiset(ps)[p] else 0
  {
    TrimEmptyIffBlank(term);
    if !AllWhiteSpace(term) {
      forall p
        ensures multiset(FilterPlaylists(ps, term))[p] == if Matches(term, p) then multiset(ps)[p] else 0
      {
        SelectCount(ps, q => Matches(term, q), true, p);
      }
    }
  }

  /** Membership: for a term that is not blank, a playlist is shown exactly
      when it is listed and matches. */
  lemma FilterMembership(ps: seq<Playlist>, term: string, p: Playlist)
    requires !AllWhiteSpace(term)
    ensures p in FilterPlaylists(ps, term) <==> p in ps && Matches(term, p)
  {
    FilterSpec(ps, term);
  }

  /** Letter case in the term does not matter: two terms that lower-case
      alike give the same list. */
  lemma FilterIgnoresCase(ps: seq<Playlist>, t1: string, t2: string)
    requires Lower(t1) == Lower(t2)
    ensures FilterPlaylists(ps, t1) == FilterPlaylists(ps, t2)
  {
    assert Trim(t1) == [] <==> Trim(t2) == [] by {
      LowerKeepsBlank(t1);
      LowerKeepsBlank(t2);
      TrimEmptyIffBlank(t1);
      TrimEmptyIffBlank(t2);
    }
    if Trim(t1) != [] {
      forall p | p in ps
        ensures Matches(t1, p) == Matches(t2, p)
      {
        MatchesIgnoresCase(t1, t2, p);
      }
      SelectSameKeys(ps, p => Matches(t1, p), p => Matches(t2, p), true);
    }
  }

  lemma MatchesIgnoresCase(t1: string, t2: string, p: Playlist)
    requires Lower(t1) == Lower(t2)
    ensures Matches(t1, p) == Matches(t2, p)
  {
  }

  /** Lower-casing turns no white space into something else and nothing
      else into white space. */
  lemma LowerKeepsBlank(s: string)
    ensures AllWhiteSpace(Lower(s)) <==> AllWhiteSpace(s)
  {
    assert forall i :: 0 <= i < |s| ==> (IsWhiteSpace(Lower(s)[i]) <==> IsWhiteSpace(s[i]));
  }

  /** The term is matched untrimmed: with a leading space, `" rock"` finds
      no playlist named `Rock`, while `"rock"` and `"ROCK"` find it. */
  lemma UntrimmedTermExample(images: seq<Image>)
    ensures var p := Playlist("1", "Rock", "", images, 0);
      && FilterPlaylists([p], " rock") == []
      && FilterPlaylists([p], "rock") == [p]
      && FilterPlaylists([p], "ROCK") == [p]
  {
    var p := Playlist("1", "Rock", "", images, 0);
    assert Lower("Rock") == "rock" by { LowerRock("Rock"); }
    assert Lower("ROCK") == "rock" by { LowerRock("ROCK"); }
    assert Lower("rock") == "rock" by { LowerRock("rock"); }
    LeadingSpaceMisses(p);
    NameMatches(p, "rock");
    NameMatches(p, "ROCK");
  }

  lemma LowerRock(s: string)
    requires s in {"Rock", "ROCK", "rock"}
    ensures Lower(s) == "rock"
  {
    var r := Lower(s);
    assert r[0] == 'r' && r[1] == 'o' && r[2] == 'c' && r[3] == 'k';
  }

  lemma LeadingSpaceMisses(p: Playlist)
    requires Lower(p.name) == "rock" && p.description == ""
    ensures FilterPlaylists([p], " rock") == []
  {
    assert !Matches(" rock", p) by {
      LongerNotContained(Lower(p.name), Lower(" rock"));
    }
    assert !IsWhiteSpace(" rock"[1]);
    TrimEmptyIffBlank(" rock");
    SelectOne(p, q => Matches(" rock", q), true);
  }

  /** A text does not contain anything longer than itself. */
  lemma LongerNotContained(s: string, t: string)
    requires |t| > |s|
    ensures !Contains(s, t)
  {
  }

  lemma NameMatches(p: Playlist, term: string)
    requires Lower(p.name) == "rock" && Lower(term) == "rock"
    ensures FilterPlaylists([p], term) == [p]
  {
    assert OccursAt("rock", "rock", 0);
    assert Matches(term, p);
    assert !IsWhiteSpace(Lower(term)[0]);
    LowerKeepsBlank(term);
    TrimEmptyIffBlank(term);
    SelectOne(p, q => Matches(term, q), true);
  }
}
