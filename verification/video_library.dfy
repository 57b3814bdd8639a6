/** The library's search box: which videos are listed for a search term. */
module VideoLibrary {
  import opened Text
  import opened Types
  import Seqs

  /**
   * A video matches when the term occurs in its title or description, both
   * lower-cased, or occurs exactly as typed in its date.
   */
  predicate Matches(v: Video, term: string) {
    || Contains(Lower(v.title), Lower(term))
    || Contains(Lower(v.description), Lower(term))
    || Contains(v.date, term)
  }

  /** The listed videos: exactly the matching ones, each as often as stored, in library order. */
  function Search(videos: seq<Video>, term: string): (r: seq<Video>)
    ensures forall v :: v in r <==> v in videos && Matches(v, term)
    ensures forall v: Video :: Matches(v, term) ==> multiset(r)[v] == multiset(videos)[v]
    ensures Seqs.IsSubsequence(r, videos)
  {
    var keep := (v: Video) => Matches(v, term);
    Seqs.FilterIsSubsequence(videos, keep);
    Seqs.Filter(videos, keep)
  }

  /** The match rule restated by positions: where in which field the term occurs. */
  lemma MatchesIff(v: Video, term: string)
    ensures Matches(v, term) <==>
              || (exists i :: OccursAt(Lower(v.title), Lower(term), i))
              || (exists i :: OccursAt(Lower(v.description), Lower(term), i))
              || (exists i :: OccursAt(v.date, term, i))
  {
    ContainsIff(Lower(v.title), Lower(term));
    ContainsIff(Lower(v.description), Lower(term));
    ContainsIff(v.date, term);
  }

  /** An empty search lists the whole library. */
  lemma EmptyTermListsAll(videos: seq<Video>)
    ensures Search(videos, "") == videos
  {
    var keep := (v: Video) => Matches(v, "");
    forall i | 0 <= i < |videos|
      ensures keep(videos[i])
    {
      ContainsEmpty(Lower(videos[i].title));
    }
    Seqs.FilterKeepsAll(videos, keep);
  }

  /**
   * Title and description matching ignores ASCII case: two terms with the same
   * lower-cased form match the same videos unless the (case-sensitive) date tells them apart.
   */
  lemma MatchIgnoresTextCase(v: Video, t1: string, t2: string)
    requires Lower(t1) == Lower(t2)
    requires Contains(v.date, t1) <==> Contains(v.date, t2)
    ensures Matches(v, t1) <==> Matches(v, t2)
  {
  }

  /**
   * Searching with two terms that differ only in ASCII case lists the same videos,
   * in the same order, whenever no date in the library tells the terms apart.
   */
  lemma SearchIgnoresTextCase(videos: seq<Video>, t1: string, t2: string)
    requires Lower(t1) == Lower(t2)
    requires forall i :: 0 <= i < |videos| ==> (Contains(videos[i].date, t1) <==> Contains(videos[i].date, t2))
    ensures Search(videos, t1) == Search(videos, t2)
  {
    Seqs.FilterAgreeing(videos, (v: Video) => Matches(v, t1), (v: Video) => Matches(v, t2));
  }

  /** Date matching does not fold case: "Jan" in a date is found by "Jan" but not by "jan". */
  lemma DateMatchIsCaseSensitive()
    ensures Matches(Video("1", "", "", "Jan", "u", Wrappers.None, "t"), "Jan")
    ensures !Matches(Video("1", "", "", "Jan", "u", Wrappers.None, "t"), "jan")
    ensures Matches(Video("1", "Jan", "", "", "u", Wrappers.None, "t"), "jAN")
  {
    var v := Video("1", "", "", "Jan", "u", Wrappers.None, "t");
    assert "Jan" <= v.date;
    assert !Contains(v.date, "jan") by {
      assert "Jan"[0] != "jan"[0];
      assert "Jan"[1..] == "an" && "an"[1..] == "n" && "n"[1..] == "";
      assert |"an"| < |"jan"| && |"n"| < |"jan"|;
    }
    assert Lower("jAN") == "jan";
    assert Lower("Jan") == "jan";
  }
}
