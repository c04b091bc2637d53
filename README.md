# Validated records: Author and Post

This project models the data layer of a small publishing application. There
are two record types, Author and Post. Each validated field runs a validator
when it is assigned. The validator either returns the value unchanged or
raises an assertion error with a fixed message. All of this logic lives in
`server/models.py`.

The model states each validator as a pure Dafny function. It returns
`Ok(value)` on acceptance and `Err(message)` on failure, with the code's own
messages. The validators are:

- `Author.validate_name`: the name must not be blank after `strip()`, and it
  must not equal a stored author name. Stored names are passed in as
  `existing: seq<string>` instead of being queried from the database.
- `Author.validate_phone_number`: the value must have exactly 10 characters.
  The characters are not checked to be digits.
- `Post.validate_title`: the title must not be blank, and it must contain
  "Won't Believe", "Secret", "Top" or "Guess" as a case-sensitive substring.
- `Post.validate_content`: at least 250 characters.
- `Post.validate_summary`: at most 250 characters.
- `Post.validate_category`: exactly "Fiction" or "Non-Fiction".

Files:

- `text.dfy` (module `Text`): Python's `str.strip()` and the substring test
  `p in s`. Each is proved against a reference definition: "every character
  is whitespace" and "some index where `p` starts".
- `models.dfy` (module `Models`): the six validators, their messages and
  their constants.
- `properties.dfy` (module `Properties`): the order of the checks, the
  exactness of the name lookup, and concrete accepted and refused values.

The order of the checks is the code's. The name validator tests for a blank
name (server/models.py:19) before it looks for a stored duplicate (lines
20-21). The title validator tests for a blank title (line 42) before it
searches for a phrase (lines 43-45). The error values are the code's own
messages: "Author must have a name", "Author with this name already exists",
"Phone number must be exactly ten digits", "Post must have a title", "Title
must be sufficiently clickbait-y", "Post content must be at least 250
characters long", "Post summary must be a maximum of 250 characters" and
"Invalid post category".

Whitespace is Python's `str.isspace()` set, written out by code point in
`Text.IsSpace`: U+0009-U+000D, U+001C-U+0020, U+0085, U+00A0, U+1680,
U+2000-U+200A, U+2028, U+2029, U+202F, U+205F and U+3000.

## Model

| member | source | states |
|---|---|---|
| Text.TrimStart | server/models.py:19 | the result is a suffix of the input, every dropped character is whitespace, and the result is empty or starts with a non-whitespace character |
| Text.TrimEnd | server/models.py:42 | the result is a prefix of the input, every dropped character is whitespace, and the result is empty or ends with a non-whitespace character |
| Text.Strip | server/models.py:19 | `strip()` gives the empty string exactly when every character of the input is whitespace; otherwise the result starts and ends with a non-whitespace character |
| Text.Contains | server/models.py:44 | the substring search answers true exactly when the phrase occurs at some index of the title |
| Models.AnyContained | server/models.py:43-44 | `any(phrase in title ...)` is true exactly when some phrase of the list occurs in the title |
| Models.ClickbaitPhrasesSearched | server/models.py:43-45 | searching the four-phrase list agrees with "the title contains one of Won't Believe, Secret, Top, Guess" |
| Models.ValidateName | server/models.py:17-22 | accepts exactly the non-blank names equal to no stored name and returns them unchanged; a blank name fails with "Author must have a name" whatever is stored; a non-blank stored name fails with "Author with this name already exists" |
| Models.ValidatePhoneNumber | server/models.py:24-27 | accepts exactly the values of length 10, returns them unchanged, else fails with "Phone number must be exactly ten digits" |
| Models.ValidateTitle | server/models.py:40-46 | accepts exactly the non-blank titles containing a clickbait phrase and returns them unchanged; a blank title fails with "Post must have a title"; a non-blank title without a phrase fails with "Title must be sufficiently clickbait-y" |
| Models.ValidateContent | server/models.py:48-51 | accepts exactly the values of at least 250 characters, returns them unchanged, else fails with the content message |
| Models.ValidateSummary | server/models.py:53-56 | accepts exactly the values of at most 250 characters, returns them unchanged, else fails with the summary message |
| Models.ValidateCategory | server/models.py:58-61 | accepts exactly "Fiction" and "Non-Fiction", returns them unchanged, else fails with "Invalid post category" |
| Properties.AcceptedNameKeepsNamesDistinct | server/models.py:12-22 | if the stored names are pairwise distinct and a name is accepted, appending it keeps them pairwise distinct |
| Properties.PaddedNameIsNotDuplicate | server/models.py:20-21 | with the lookup taken as exact equality on the raw value (a binary collation), a stored non-blank name with a leading space added is accepted |
| Properties.NameLookupIsCaseSensitive | server/models.py:19-22 | with the lookup taken as exact equality (a binary collation) and "Jane" stored, "Jane" is refused as a duplicate while " Jane" and "jane" are accepted |
| Properties.AuthorScenario | server/models.py:17-27 | a first "Jane Doe" with phone "1234567890" is accepted, a second "Jane Doe" is refused as a duplicate |
| Properties.PhoneNumberChecksLengthOnly | server/models.py:26 | "abcdefghij" passes the phone check, "123456789" fails it |
| Properties.ContentAndSummaryMeetAt250 | server/models.py:50-55 | every string passes the content or the summary check, and passes both exactly when it has 250 characters |
| Properties.AbsentInitialMeansNoOccurrence | server/models.py:44 | a phrase does not occur in a string that lacks its first character |
| Properties.NoInitialsNoClickbait | server/models.py:43-45 | a title without any of the characters W, S, T, G contains none of the four phrases |
| Properties.BlankTitleIsNeverClickbait | server/models.py:42-45 | a blank title contains no phrase, so the blank check only chooses the message of a refused title |
| Properties.ClickbaitTitleAccepted | server/models.py:40-46 | "Top 10 Secrets" is accepted unchanged |
| Properties.PlainTitlesRefused | server/models.py:42-45 | "My Day" and "top secret" fail with the clickbait message, "   " with the blank-title message |
| Properties.CategoryIsExact | server/models.py:60 | "Fiction" and "Non-Fiction" pass; "fiction", " Fiction" and "Non-fiction" fail |

## Left out

- Column declarations, the declarative base, the `db` object and the
  `@validates` hook (server/models.py:1-15, 29-38): library plumbing. The
  validators are plain functions here.
- The database query for an existing author (server/models.py:20): I/O.
  It is replaced by the `existing` sequence, which holds every stored name,
  the record's own current name included. So giving an author their own name
  again fails as a duplicate.
- `ValidateName`: the lookup is exact, case-sensitive equality on the raw
  value. The query's `Author.name == name` is the database's `=`, and the
  column (server/models.py:12) declares no collation. The lookup is exact
  only under a binary collation, which is SQLite's default. Under a
  case-insensitive collation "jane" would be refused once "Jane" is stored;
  the model does not capture that.
- Python's `-O` mode: the model assumes assertions are enabled. Under `-O`
  the `assert` statements at server/models.py:19, 21, 26, 42, 50, 55 and 60
  are removed, and only the `raise` at line 45 remains. Every validator then
  accepts every value, except that a title without a clickbait phrase still
  fails with "Title must be sufficiently clickbait-y". A blank title contains
  no phrase, so it fails with that message too.
- The `created_at` / `updated_at` timestamps: clock reads done by the
  database.
- The unique index on `authors.name` and the race between two writers that
  both pass the lookup: storage and concurrency, not validation.
- Non-string inputs: `str(None)` in the phone check, and the `TypeError` that
  `len(None)` raises in the content and summary checks. All inputs are
  strings, so `str(phone_number)` is the value itself.
- Python strings are sequences of code points; Dafny `string` is a sequence
  of Unicode scalar values, so lone surrogates cannot be represented.
