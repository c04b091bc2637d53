/** The field validators of the two record types, Author and Post
    (server/models.py). Each validator is run when its field is assigned: it
    returns the value unchanged, or fails with a fixed message. A failure is
    `Err(message)` here; the table query for existing author names becomes
    the explicit parameter `existing`. */
module Models {
  import opened Text

  datatype Result<T, E> = Ok(value: T) | Err(error: E)

  const NameBlank := "Author must have a name"
  const NameTaken := "Author with this name already exists"
  const PhoneLength := "Phone number must be exactly ten digits"
  const TitleBlank := "Post must have a title"
  const NotClickbait := "Title must be sufficiently clickbait-y"
  const ContentTooShort := "Post content must be at least 250 characters long"
  const SummaryTooLong := "Post summary must be a maximum of 250 characters"
  const BadCategory := "Invalid post category"

  /** The phrases one of which a post title must contain. */
  const ClickbaitPhrases: seq<string> := ["Won't Believe", "Secret", "Top", "Guess"]

  /** The only accepted post categories. */
  const Categories: seq<string> := ["Fiction", "Non-Fiction"]

  const PhoneDigits := 10
  const MinContent := 250
  const MaxSummary := 250

  /** Some phrase of `phrases` is a substring of `s` (Python's
      `any(phrase in s for phrase in phrases)`). */
  function AnyContained(phrases: seq<string>, s: string): (r: bool)
    ensures r <==> exists k :: 0 <= k < |phrases| && Occurs(phrases[k], s)
  {
    if phrases == [] then false
    else Contains(s, phrases[0]) || AnyContained(phrases[1..], s)
  }

  /** A title is clickbait when it contains one of the four phrases. */
  ghost predicate IsClickbait(title: string) {
    Occurs("Won't Believe", title) || Occurs("Secret", title)
    || Occurs("Top", title) || Occurs("Guess", title)
  }

  /** `Author.validate_name`: the blank check comes first, then the lookup
      among the names already stored, taken as exact, case-sensitive equality
      (the database's `=` under a binary collation). `existing` holds every
      stored name, the record's own current name included. */
  function ValidateName(existing: seq<string>, name: string): (r: Result<string, string>)
    ensures r.Ok? <==> !IsBlank(name) && name !in existing
    ensures r.Ok? ==> r.value == name
    ensures IsBlank(name) ==> r == Err(NameBlank)
    ensures !IsBlank(name) && name in existing ==> r == Err(NameTaken)
  {
    if Strip(name) == [] then Err(NameBlank)
    else if name in existing then Err(NameTaken)
    else Ok(name)
  }

  /** `Author.validate_phone_number`: only the length is checked, not that
      the characters are digits. */
  function ValidatePhoneNumber(phone: string): (r: Result<string, string>)
    ensures r.Ok? <==> |phone| == 10
    ensures r.Ok? ==> r.value == phone
    ensures r.Err? ==> r.error == PhoneLength
  {
    if |phone| == PhoneDigits then Ok(phone) else Err(PhoneLength)
  }

  /** `Post.validate_title`: the blank check comes first, then the search for
      a clickbait phrase. */
  function ValidateTitle(title: string): (r: Result<string, string>)
    ensures r.Ok? <==> !IsBlank(title) && IsClickbait(title)
    ensures r.Ok? ==> r.value == title
    ensures IsBlank(title) ==> r == Err(TitleBlank)
    ensures !IsBlank(title) && !IsClickbait(title) ==> r == Err(NotClickbait)
  {
    ClickbaitPhrasesSearched(title);
    if Strip(title) == [] then Err(TitleBlank)
    else if !AnyContained(ClickbaitPhrases, title) then Err(NotClickbait)
    else Ok(title)
  }

  /** Searching the phrase list finds a phrase exactly when the title is
      clickbait. */
  lemma ClickbaitPhrasesSearched(title: string)
    ensures AnyContained(ClickbaitPhrases, title) <==> IsClickbait(title)
  {
    var ps := ClickbaitPhrases;
    assert ps[0] == "Won't Believe" && ps[1] == "Secret" && ps[2] == "Top" && ps[3] == "Guess";
  }

  /** `Post.validate_content`: at least 250 characters. */
  function ValidateContent(content: string): (r: Result<string, string>)
    ensures r.Ok? <==> |content| >= 250
    ensures r.Ok? ==> r.value == content
    ensures r.Err? ==> r.error == ContentTooShort
  {
    if |content| >= MinContent then Ok(content) else Err(ContentTooShort)
  }

  /** `Post.validate_summary`: at most 250 characters. */
  function ValidateSummary(summary: string): (r: Result<string, string>)
    ensures r.Ok? <==> |summary| <= 250
    ensures r.Ok? ==> r.value == summary
    ensures r.Err? ==> r.error == SummaryTooLong
  {
    if |summary| <= MaxSummary then Ok(summary) else Err(SummaryTooLong)
  }

  /** `Post.validate_category`: exact membership, no trimming or case folding. */
  function ValidateCategory(category: string): (r: Result<string, string>)
    ensures r.Ok? <==> category == "Fiction" || category == "Non-Fiction"
    ensures r.Ok? ==> r.value == category
    ensures r.Err? ==> r.error == BadCategory
  {
    if category in Categories then Ok(category) else Err(BadCategory)
  }
}
