/**
 * The ordering of the second request example documented on the servlet
 * (`minYear=2018&minAwards=3&sortBy=nominations&limit=4`), replayed on the four films it returns.
 */
module Scenarios {
  import opened JavaStrings
  import opened Models
  import opened FilmSort
  import opened FilmQuery

  const Parasite := FilmRecord("Parasite", "2019", "4", "6", "true", "8855")
  const BohemianRhapsody := FilmRecord("Bohemian Rhapsody", "2018", "4", "5", "false", "387")
  const BlackPanther := FilmRecord("Black Panther", "2018", "3", "7", "false", "770")
  const GreenBook := FilmRecord("Green Book", "2018", "3", "5", "true", "2945")

  /**
   * Sorting on nominations puts the two five-nomination films first, in the order they were
   * loaded, then six, then seven; a limit of 4 keeps all of them.
   */
  lemma NominationsExample()
    ensures Take(SortBy([Parasite, BohemianRhapsody, BlackPanther, GreenBook], ByNominations), 4)
            == [BohemianRhapsody, GreenBook, Parasite, BlackPanther]
  {
    var s := [Parasite, BohemianRhapsody, BlackPanther, GreenBook];
    assert s[..1] == [Parasite] && s[..2] == [Parasite, BohemianRhapsody];
    assert s[..3] == [Parasite, BohemianRhapsody, BlackPanther];
    assert SortBy(s[..1], ByNominations) == [Parasite] by {
      assert s[..1][..0] == [];
    }
    assert CompareTo("5", "7") < 0 && CompareTo("6", "7") < 0;
    assert CompareTo("5", "5") == 0 && CompareTo("6", "5") > 0;
    assert [BohemianRhapsody, Parasite][1..] == [Parasite];
    assert Insert([Parasite], BlackPanther, ByNominations) == [Parasite, BlackPanther];
    assert s[..3][..2] == s[..2] && s[..2][..1] == s[..1];
    assert SortBy(s[..2], ByNominations) == [BohemianRhapsody, Parasite];
    assert SortBy(s[..3], ByNominations) == [BohemianRhapsody, Parasite, BlackPanther];
    var three := [BohemianRhapsody, Parasite, BlackPanther];
    assert three[1..] == [Parasite, BlackPanther];
    assert Insert(three[1..], GreenBook, ByNominations) == [GreenBook, Parasite, BlackPanther];
    assert SortBy(s, ByNominations) == [BohemianRhapsody, GreenBook, Parasite, BlackPanther];
  }
}
