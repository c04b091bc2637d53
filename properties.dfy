/** What the validators of server/models.py promise beyond a single call:
    the order of their checks, the exactness (under a binary collation) of the name lookup, and the
    concrete cases the record types are meant to accept and refuse. */
module Properties {
  import opened Text
  import opened Models

  /** No name is stored twice. */
  ghost predicate Distinct(names: seq<string>) {
    forall i, j :: 0 <= i < j < |names| ==> names[i] != names[j]
  }

  /** A name that passes validation can be stored without breaking the
      uniqueness of the stored names. */
  lemma AcceptedNameKeepsNamesDistinct(existing: seq<string>, name: string)
    requires Distinct(existing)
    requires ValidateName(existing, name).Ok?
    ensures Distinct(existing + [ValidateName(existing, name).value])
  {
  }

  /** With the lookup taken as exact equality on the raw value (a binary
      collation in the database), padding a stored name with a leading space
      gives a name that is accepted. */
  lemma PaddedNameIsNotDuplicate(name: string)
    requires !IsBlank(name)
    ensures ValidateName([name], " " + name) == Ok(" " + name)
  {
  }

  /** With the lookup taken as exact, case-sensitive equality, "Jane" is
      refused once "Jane" is stored; " Jane" and "jane" are not. */
  lemma NameLookupIsCaseSensitive()
    ensures ValidateName(["Jane"], "Jane") == Err(NameTaken)
    ensures ValidateName(["Jane"], " Jane") == Ok(" Jane")
    ensures ValidateName(["Jane"], "jane") == Ok("jane")
  {
    var jane, padded, lower := "Jane", " Jane", "jane";
    assert !IsSpace(jane[0]) && !IsSpace(padded[1]) && !IsSpace(lower[0]);
    assert |padded| != |jane| && lower[0] != jane[0];
    assert padded !in [jane] && lower !in [jane];
  }

  /** A first author "Jane Doe" with phone "1234567890" is accepted; a
      second "Jane Doe" is refused as a duplicate. */
  lemma AuthorScenario()
    ensures ValidateName([], "Jane Doe") == Ok("Jane Doe")
    ensures ValidatePhoneNumber("1234567890") == Ok("1234567890")
    ensures ValidateName(["Jane Doe"], "Jane Doe") == Err(NameTaken)
  {
  }

  /** Only the length of a phone number is checked: ten letters pass, nine
      digits do not. */
  lemma PhoneNumberChecksLengthOnly()
    ensures ValidatePhoneNumber("abcdefghij") == Ok("abcdefghij")
    ensures ValidatePhoneNumber("123456789") == Err(PhoneLength)
  {
  }

  /** Every string passes the content check or the summary check, and it
      passes both exactly when it is 250 characters long. */
  lemma ContentAndSummaryMeetAt250(s: string)
    ensures ValidateContent(s).Ok? || ValidateSummary(s).Ok?
    ensures ValidateContent(s).Ok? && ValidateSummary(s).Ok? <==> |s| == 250
  {
  }

  /** A phrase cannot occur in a string that lacks the phrase's first
      character. */
  lemma AbsentInitialMeansNoOccurrence(p: string, s: string)
    requires |p| > 0
    requires forall i :: 0 <= i < |s| ==> s[i] != p[0]
    ensures !Occurs(p, s)
  {
    forall i ensures !OccursAt(p, s, i) {
      if 0 <= i && i + |p| <= |s| {
        assert s[i..i + |p|][0] == s[i];
      }
    }
  }

  /** A title none of whose characters is 'W', 'S', 'T' or 'G' (the initials
      of the four phrases) is not clickbait. */
  lemma NoInitialsNoClickbait(title: string)
    requires forall i :: 0 <= i < |title| ==> title[i] !in "WSTG"
    ensures !IsClickbait(title)
  {
    AbsentInitialMeansNoOccurrence("Won't Believe", title);
    AbsentInitialMeansNoOccurrence("Secret", title);
    AbsentInitialMeansNoOccurrence("Top", title);
    AbsentInitialMeansNoOccurrence("Guess", title);
  }

  /** A blank title contains none of the phrases, since every phrase starts
      with a character that is not whitespace; so the blank-title check
      decides only which message a refused title gets, never whether it is
      refused. */
  lemma BlankTitleIsNeverClickbait(title: string)
    requires IsBlank(title)
    ensures !IsClickbait(title)
  {
    forall i | 0 <= i < |title| ensures title[i] !in "WSTG" {
      assert IsSpace(title[i]);
    }
    NoInitialsNoClickbait(title);
  }

  /** A title holding two of the phrases is accepted. */
  lemma ClickbaitTitleAccepted()
    ensures ValidateTitle("Top 10 Secrets") == Ok("Top 10 Secrets")
  {
    var t := "Top 10 Secrets";
    assert !IsSpace(t[0]);
    assert t[0..3] == "Top";
    assert OccursAt("Top", t, 0);
  }

  /** A plain title and a lower-case one are refused as not clickbait; a
      blank one is refused as blank. */
  lemma PlainTitlesRefused()
    ensures ValidateTitle("My Day") == Err(NotClickbait)
    ensures ValidateTitle("top secret") == Err(NotClickbait)
    ensures ValidateTitle("   ") == Err(TitleBlank)
  {
    var plain, lower := "My Day", "top secret";
    assert !IsSpace(plain[0]) && !IsSpace(lower[0]);
    NoInitialsNoClickbait(plain);
    NoInitialsNoClickbait(lower);
  }

  /** Categories are matched exactly: no trimming, no case folding. */
  lemma CategoryIsExact()
    ensures ValidateCategory("Fiction") == Ok("Fiction")
    ensures ValidateCategory("Non-Fiction") == Ok("Non-Fiction")
    ensures ValidateCategory("fiction") == Err(BadCategory)
    ensures ValidateCategory(" Fiction") == Err(BadCategory)
    ensures ValidateCategory("Non-fiction") == Err(BadCategory)
  {
  }
}
