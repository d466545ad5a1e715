/** The add/edit form: its validation schema, its default values, the genre
    picker, and the clean-up applied to valid values before they are handed on. */
module MediaForm {
  import opened Wrappers
  import opened Seqs
  import opened Types

  /** The form's values. Type and status hold the text of the select; the
      genre picker only ever writes genres. */
  datatype FormValues = FormValues(
    title: string,
    mediaType: string,
    genres: seq<Genre>,
    description: string,
    rating: real,
    status: string,
    imageUrl: Option<string>)

  /** The validated fields. */
  datatype FormField = TitleField | TypeField | GenresField | RatingField | StatusField | ImageUrlField

  function AllFields(): set<FormField>
  {
    {TitleField, TypeField, GenresField, RatingField, StatusField, ImageUrlField}
  }

  lemma AllFieldsComplete()
    ensures forall f :: f in AllFields()
  {
    forall f ensures f in AllFields() {
      match f
      case TitleField =>
      case TypeField =>
      case GenresField =>
      case RatingField =>
      case StatusField =>
      case ImageUrlField =>
    }
  }

  /** The schema's rule for `f` fails on `v`. `isUrl` is the library's URL
      check; an empty image URL is allowed as such. */
  predicate Violates(v: FormValues, f: FormField, isUrl: string -> bool)
  {
    match f
    case TitleField => |v.title| < 1
    case TypeField => MediaTypeNamed(v.mediaType).None?
    case GenresField => |v.genres| < 1
    case RatingField => !(0.0 <= v.rating <= 10.0)
    case StatusField => StatusNamed(v.status).None?
    case ImageUrlField => v.imageUrl.Some? && v.imageUrl.value != "" && !isUrl(v.imageUrl.value)
  }

  /** What valid values become: the data handed to `onSubmit`, which has no
      id, no watchlist flag and no watchlist status. */
  datatype Submission = Submission(
    title: string,
    mediaType: MediaType,
    genres: seq<Genre>,
    description: string,
    rating: real,
    status: Status,
    imageUrl: Option<string>)

  /** The schema resolver: the parsed values when every rule holds, else the
      set of fields whose rule fails. */
  function Validate(v: FormValues, isUrl: string -> bool): (r: Result<Submission, set<FormField>>)
    ensures r.Success? <==> forall f :: !Violates(v, f, isUrl)
    ensures r.Failure? ==> r.error != {} && forall f :: f in r.error <==> Violates(v, f, isUrl)
    ensures r.Success? ==> && MediaTypeName(r.value.mediaType) == v.mediaType
                           && StatusName(r.value.status) == v.status
                           && r.value.title == v.title && r.value.genres == v.genres
                           && r.value.description == v.description && r.value.rating == v.rating
                           && r.value.imageUrl == v.imageUrl
  {
    var errors := set f | f in AllFields() && Violates(v, f, isUrl);
    AllFieldsComplete();
    if errors != {} then
      Failure(errors)
    else
      assert forall f :: !Violates(v, f, isUrl) by {
        forall f ensures !Violates(v, f, isUrl) {
          assert f !in errors;
        }
      }
      assert !Violates(v, TypeField, isUrl) && !Violates(v, StatusField, isUrl);
      Success(Submission(v.title, MediaTypeNamed(v.mediaType).value, v.genres, v.description,
                         v.rating, StatusNamed(v.status).value, v.imageUrl))
  }

  /** `handleFormSubmit`: an empty image URL is deleted, anything else is
      handed on as it is. */
  function Submitted(values: Submission): (data: Submission)
    ensures data.imageUrl.Some? ==> data.imageUrl.value != ""
    ensures values.imageUrl != Some("") ==> data == values
    ensures data.(imageUrl := values.imageUrl) == values
  {
    if values.imageUrl == Some("") then values.(imageUrl := None) else values
  }

  /** `a || b` on an optional string: `a` when it is present and non-empty. */
  function OrEmpty(s: Option<string>): string
  {
    if s.Some? then s.value else ""
  }

  /** The default values: the item's fields when editing, with the source's
      `||` fallbacks, so a rating of 0 falls back to 5. */
  function DefaultValues(initial: Option<MediaItem>): (r: FormValues)
    ensures r.rating != 0.0 && r.imageUrl.Some?
    ensures initial.None? ==>
      && r.title == "" && r.genres == [] && r.description == "" && r.rating == 5.0
      && MediaTypeNamed(r.mediaType) == Some(Anime) && StatusNamed(r.status) == Some(Ongoing)
      && r.imageUrl == Some("")
    ensures initial.Some? ==>
      && r.title == initial.value.title && r.genres == initial.value.genres
      && r.description == initial.value.description
      && MediaTypeNamed(r.mediaType) == Some(initial.value.mediaType)
      && StatusNamed(r.status) == Some(initial.value.status)
      && (initial.value.rating != 0.0 ==> r.rating == initial.value.rating)
      && (initial.value.rating == 0.0 ==> r.rating == 5.0)
      && (initial.value.imageUrl.Some? ==> r.imageUrl == initial.value.imageUrl)
      && (initial.value.imageUrl.None? ==> r.imageUrl == Some(""))
  {
    match initial
    case None =>
      NamedInverse(Anime, Ongoing);
      FormValues("", MediaTypeName(Anime), [], "", 5.0, StatusName(Ongoing), Some(""))
    case Some(item) =>
      NamedInverse(item.mediaType, item.status);
      FormValues(item.title, MediaTypeName(item.mediaType), item.genres, item.description,
                 if item.rating != 0.0 then item.rating else 5.0,
                 StatusName(item.status), Some(OrEmpty(item.imageUrl)))
  }

  /** The fields of an item that the form edits. */
  function SubmissionOf(item: MediaItem): Submission
  {
    Submission(item.title, item.mediaType, item.genres, item.description, item.rating,
               item.status, item.imageUrl)
  }

  /** A new form, submitted untouched, is refused for exactly its empty title
      and its empty genre list. */
  lemma NewFormNeedsTitleAndGenres(isUrl: string -> bool)
    ensures Validate(DefaultValues(None), isUrl) == Failure({TitleField, GenresField})
  {
    NamedInverse(Anime, Ongoing);
    var r := Validate(DefaultValues(None), isUrl);
    assert Violates(DefaultValues(None), TitleField, isUrl);
    assert r.error == {TitleField, GenresField};
  }

  /** Editing an item and saving without changes hands back the item's own
      fields, provided they pass the schema and the rating is not 0. */
  lemma UnchangedEditResubmits(item: MediaItem, isUrl: string -> bool)
    requires item.title != "" && |item.genres| >= 1
    requires 0.0 < item.rating <= 10.0
    requires item.imageUrl.None? || (item.imageUrl.value != "" && isUrl(item.imageUrl.value))
    ensures Validate(DefaultValues(Some(item)), isUrl).Success?
    ensures Submitted(Validate(DefaultValues(Some(item)), isUrl).value) == SubmissionOf(item)
  {
    NamedInverse(item.mediaType, item.status);
    var v := DefaultValues(Some(item));
    forall f ensures !Violates(v, f, isUrl) {
    }
    EnumNamesInjective(Validate(v, isUrl).value.mediaType, item.mediaType,
                       Validate(v, isUrl).value.status, item.status);
  }

  /** Editing an item rated 0 and saving without changes stores a rating of 5. */
  lemma ZeroRatingResubmitsAsFive(item: MediaItem, isUrl: string -> bool)
    requires item.rating == 0.0
    requires item.title != "" && |item.genres| >= 1
    requires item.imageUrl.None? || (item.imageUrl.value != "" && isUrl(item.imageUrl.value))
    ensures Validate(DefaultValues(Some(item)), isUrl).Success?
    ensures Submitted(Validate(DefaultValues(Some(item)), isUrl).value).rating == 5.0
  {
    NamedInverse(item.mediaType, item.status);
    var v := DefaultValues(Some(item));
    forall f ensures !Violates(v, f, isUrl) {
    }
  }

  /** The rating slider: 0 to 10 in steps of 0.5, as the `k`-th step. */
  function SliderValue(k: nat): (r: real)
    requires k <= 20
    ensures 0.0 <= r <= 10.0
  {
    k as real * 0.5
  }

  /** No slider position breaks the rating rule. */
  lemma SliderRatingValid(v: FormValues, k: nat, isUrl: string -> bool)
    requires k <= 20
    ensures !Violates(v.(rating := SliderValue(k)), RatingField, isUrl)
  {
  }

  /** The form's genre field and the picker's `selectedGenres` state. */
  class MediaFormState {
    var values: FormValues
    var selectedGenres: seq<Genre>

    /** The picker shows what the form holds. */
    ghost predicate Synced()
      reads this
    {
      selectedGenres == values.genres
    }

    /** The form with its defaults, after the mount effect has copied the
        default genres into `selectedGenres`. */
    constructor(initial: Option<MediaItem>)
      ensures values == DefaultValues(initial)
      ensures Synced()
    {
      var defaults := DefaultValues(initial);
      values := defaults;
      selectedGenres := defaults.genres;
    }

    /** `handleGenreSelect`: toggles `genre` in the form's genres and writes
        the same list to `selectedGenres`. */
    method HandleGenreSelect(genre: Genre)
      modifies this
      ensures values == old(values).(genres := Toggle(old(values).genres, genre))
      ensures Synced()
    {
      var currentGenres := values.genres;
      if genre in currentGenres {
        var filtered := Filter(currentGenres, Excluding(genre));
        values := values.(genres := filtered);
        selectedGenres := filtered;
      } else {
        var updated := currentGenres + [genre];
        values := values.(genres := updated);
        selectedGenres := updated;
      }
    }
  }
}
