/** The film entry: a mutable bean of six string attributes, and the value it holds. */
module Models {
  import opened Wrappers

  /** The six attributes of a film as they stand at one moment; all of them are strings. */
  datatype FilmRecord = FilmRecord(
    title: string,
    year: string,
    awards: string,
    nominations: string,
    isBestPicture: string,
    numberOfReferences: string)

  /**
   * The film model. Every attribute, numeric or boolean in meaning, is kept as a string;
   * `None` is a Java `null`, the value of an attribute that was never injected nor set.
   */
  class Film {
    var title: Option<string>
    var year: Option<string>
    var awards: Option<string>
    var nominations: Option<string>
    var isBestPicture: Option<string>
    var numberOfReferences: Option<string>

    /** A film on which nothing has been injected or set yet. */
    constructor ()
      ensures GetTitle() == None && GetYear() == None && GetAwards() == None
      ensures GetNominations() == None && GetIsBestPicture() == None
      ensures GetNumberOfReferences() == None
    {
      title, year, awards := None, None, None;
      nominations, isBestPicture, numberOfReferences := None, None, None;
    }

    function GetTitle(): Option<string> reads this { title }
    function GetYear(): Option<string> reads this { year }
    function GetAwards(): Option<string> reads this { awards }
    function GetNominations(): Option<string> reads this { nominations }
    function GetIsBestPicture(): Option<string> reads this { isBestPicture }
    function GetNumberOfReferences(): Option<string> reads this { numberOfReferences }

    method SetTitle(value: Option<string>)
      modifies this
      ensures GetTitle() == value
      ensures GetYear() == old(GetYear()) && GetAwards() == old(GetAwards())
      ensures GetNominations() == old(GetNominations())
      ensures GetIsBestPicture() == old(GetIsBestPicture())
      ensures GetNumberOfReferences() == old(GetNumberOfReferences())
    {
      title := value;
    }

    method SetYear(value: Option<string>)
      modifies this
      ensures GetYear() == value
      ensures GetTitle() == old(GetTitle()) && GetAwards() == old(GetAwards())
      ensures GetNominations() == old(GetNominations())
      ensures GetIsBestPicture() == old(GetIsBestPicture())
      ensures GetNumberOfReferences() == old(GetNumberOfReferences())
    {
      year := value;
    }

    method SetAwards(value: Option<string>)
      modifies this
      ensures GetAwards() == value
      ensures GetTitle() == old(GetTitle()) && GetYear() == old(GetYear())
      ensures GetNominations() == old(GetNominations())
      ensures GetIsBestPicture() == old(GetIsBestPicture())
      ensures GetNumberOfReferences() == old(GetNumberOfReferences())
    {
      awards := value;
    }

    method SetNominations(value: Option<string>)
      modifies this
      ensures GetNominations() == value
      ensures GetTitle() == old(GetTitle()) && GetYear() == old(GetYear())
      ensures GetAwards() == old(GetAwards())
      ensures GetIsBestPicture() == old(GetIsBestPicture())
      ensures GetNumberOfReferences() == old(GetNumberOfReferences())
    {
      nominations := value;
    }

    method SetIsBestPicture(value: Option<string>)
      modifies this
      ensures GetIsBestPicture() == value
      ensures GetTitle() == old(GetTitle()) && GetYear() == old(GetYear())
      ensures GetAwards() == old(GetAwards()) && GetNominations() == old(GetNominations())
      ensures GetNumberOfReferences() == old(GetNumberOfReferences())
    {
      isBestPicture := value;
    }

    method SetNumberOfReferences(value: Option<string>)
      modifies this
      ensures GetNumberOfReferences() == value
      ensures GetTitle() == old(GetTitle()) && GetYear() == old(GetYear())
      ensures GetAwards() == old(GetAwards()) && GetNominations() == old(GetNominations())
      ensures GetIsBestPicture() == old(GetIsBestPicture())
    {
      numberOfReferences := value;
    }

    /** Every attribute is present (non-null). */
    predicate Complete()
      reads this
    {
      title.Some? && year.Some? && awards.Some? && nominations.Some?
      && isBestPicture.Some? && numberOfReferences.Some?
    }

    /** The values the getters return now. */
    function Record(): FilmRecord
      reads this
      requires Complete()
    {
      FilmRecord(title.value, year.value, awards.value, nominations.value,
                 isBestPicture.value, numberOfReferences.value)
    }
  }
}
