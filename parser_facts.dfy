/** What parseWhatsAppMessage promises, stated about `Parser.Parse`: the
    field policies (first match, last match, the `!amount` guard), the
    fallbacks, and the shapes of the fields it returns. */
module ParserFacts {
  import opened Util
  import opened Text
  import opened Calendar
  import opened Records
  import opened Parser

  // ---------------------------------------------------------------------
  // Category

  /** The category is always one of the fixed labels: an explicit label
      only when it is one, otherwise an inferred one, otherwise "Other". */
  lemma ParseCategoryValid(message: string, today: Day)
    requires ValidDay(today)
    ensures Parse(message, today).category in Categories
  {
    var lines := Lines(message);
    var first := First(lines, LineCategory);
    if first.Some? {
      FirstIsEarliest(lines, LineCategory);
      var k :| 0 <= k < |lines| && LineCategory(lines[k]) == first &&
               forall j :: 0 <= j < k ==> LineCategory(lines[j]).None?;
      LineFieldsShape(lines[k]);
    } else {
      InferCategoryIn(Lower(message));
    }
  }

  /** The first line with a valid category label sets the category; lines
      whose label names no category do not block later ones. */
  lemma ParseCategoryFirstLine(message: string, today: Day, k: nat)
    requires ValidDay(today)
    requires k < |Lines(message)| && LineCategory(Lines(message)[k]).Some?
    requires forall j :: 0 <= j < k ==> LineCategory(Lines(message)[j]).None?
    ensures Parse(message, today).category == LineCategory(Lines(message)[k]).value
  {
    FirstAt(Lines(message), LineCategory, k);
  }

  /** With no valid category label, the keyword table decides, and "Other"
      is the last resort. */
  lemma ParseCategoryInferred(message: string, today: Day)
    requires ValidDay(today)
    requires forall k :: 0 <= k < |Lines(message)| ==> LineCategory(Lines(message)[k]).None?
    ensures Parse(message, today).category == ValueOr(InferCategory(Lower(message)), "Other")
  {
    FirstNone(Lines(message), LineCategory);
  }

  /** An inferred category is that of the first row of the table, in order,
      with a keyword in the lower-cased message; none is inferred exactly
      when no row has one. */
  lemma InferCategoryFirstRow(lower: string)
    ensures InferCategory(lower).Some? ==>
              exists k :: 0 <= k < |KeywordTable| && InferCategory(lower) == Some(KeywordTable[k].category) &&
                          RowHits(lower, KeywordTable[k]) &&
                          forall j :: 0 <= j < k ==> !RowHits(lower, KeywordTable[j])
    ensures InferCategory(lower).None? <==> forall j :: 0 <= j < |KeywordTable| ==> !RowHits(lower, KeywordTable[j])
  {
    var f := HitIn(lower);
    FirstNone(KeywordTable, f);
    assert forall j :: 0 <= j < |KeywordTable| ==> (f(KeywordTable[j]).None? <==> !RowHits(lower, KeywordTable[j]));
    if InferCategory(lower).Some? {
      FirstIsEarliest(KeywordTable, f);
      var k :| 0 <= k < |KeywordTable| && f(KeywordTable[k]) == InferCategory(lower) &&
               forall j :: 0 <= j < k ==> f(KeywordTable[j]).None?;
      assert RowHits(lower, KeywordTable[k]);
    }
  }

  // ---------------------------------------------------------------------
  // Date

  /** The first line with a date sets it, normalised. */
  lemma ParseDateFirstLine(message: string, today: Day, k: nat)
    requires ValidDay(today)
    requires k < |Lines(message)| && LineDate(Lines(message)[k]).Some?
    requires forall j :: 0 <= j < k ==> LineDate(Lines(message)[j]).None?
    ensures Parse(message, today).date == NormalizeDate(DateCapture(Lines(message)[k]).value)
  {
    FirstAt(Lines(message), LineDate, k);
  }

  /** With no date in any line, the date is today's. */
  lemma ParseDateToday(message: string, today: Day)
    requires ValidDay(today)
    requires forall k :: 0 <= k < |Lines(message)| ==> LineDate(Lines(message)[k]).None?
    ensures Parse(message, today).date == IsoDate(today)
  {
    FirstNone(Lines(message), LineDate);
  }

  /** Whatever its source, the date has the shape `dddd-dd-dd`. */
  lemma ParseDateShape(message: string, today: Day)
    requires ValidDay(today) && FourDigitYear(today.year)
    ensures IsoShape(Parse(message, today).date)
  {
    var lines := Lines(message);
    var first := First(lines, LineDate);
    if first.Some? {
      FirstIsEarliest(lines, LineDate);
      var k :| 0 <= k < |lines| && LineDate(lines[k]) == first &&
               forall j :: 0 <= j < k ==> LineDate(lines[j]).None?;
      LineFieldsShape(lines[k]);
    } else {
      IsoDateShape(today);
    }
  }

  // ---------------------------------------------------------------------
  // Description and tags

  /** The first line with a non-empty description sets it. */
  lemma ParseDescriptionFirstLine(message: string, today: Day, k: nat)
    requires ValidDay(today)
    requires k < |Lines(message)| && LineDescription(Lines(message)[k]).Some?
    requires forall j :: 0 <= j < k ==> LineDescription(Lines(message)[j]).None?
    ensures Parse(message, today).description == Trim(DescriptionCapture(Lines(message)[k]).value)
  {
    FirstAt(Lines(message), LineDescription, k);
  }

  /** With no description in any line, the description is empty. */
  lemma ParseDescriptionEmpty(message: string, today: Day)
    requires ValidDay(today)
    ensures Parse(message, today).description == "" <==>
              forall k :: 0 <= k < |Lines(message)| ==> LineDescription(Lines(message)[k]).None?
  {
    var lines := Lines(message);
    FirstNone(lines, LineDescription);
    if First(lines, LineDescription).Some? {
      FirstIsEarliest(lines, LineDescription);
      var k :| 0 <= k < |lines| && LineDescription(lines[k]) == First(lines, LineDescription) &&
               forall j :: 0 <= j < k ==> LineDescription(lines[j]).None?;
      LineFieldsShape(lines[k]);
    }
  }

  /** The last line with a tags label sets the tags, split on commas,
      trimmed and with empty pieces dropped, then joined with ", ". */
  lemma ParseTagsLastLine(message: string, today: Day, k: nat)
    requires ValidDay(today)
    requires k < |Lines(message)| && TagsCapture(Lines(message)[k]).Some?
    requires forall j :: k < j < |Lines(message)| ==> TagsCapture(Lines(message)[j]).None?
    ensures Parse(message, today).tags == Join(SplitTags(TagsCapture(Lines(message)[k]).value), ", ")
  {
    var lines := Lines(message);
    LastAt(lines, LineTags, k);
  }

  /** With no tags label in any line, the tags are the empty string. */
  lemma ParseTagsNone(message: string, today: Day)
    requires ValidDay(today)
    requires forall k :: 0 <= k < |Lines(message)| ==> TagsCapture(Lines(message)[k]).None?
    ensures Parse(message, today).tags == ""
  {
    LastNone(Lines(message), LineTags);
  }

  // ---------------------------------------------------------------------
  // Amount

  /** The first line with a positive labelled amount sets the amount; a
      labelled zero before it does not block it. */
  lemma ParseAmountLabelled(message: string, today: Day, k: nat)
    requires ValidDay(today)
    requires k < |Lines(message)| && LineAmount(Lines(message)[k]).Some? && LineAmount(Lines(message)[k]).value > 0
    requires forall j :: 0 <= j < k ==> LineAmount(Lines(message)[j]).None? || LineAmount(Lines(message)[j]).value == 0
    ensures Parse(message, today).amount == LineAmount(Lines(message)[k])
  {
    var lines := Lines(message);
    LabelledAmountMeaning(lines, LineAmount);
    var held := LabelledAmount(lines, LineAmount);
    assert held.Some? && held.value > 0;
    var i :| 0 <= i < |lines| && LineAmount(lines[i]) == held &&
             forall j :: 0 <= j < i ==> LineAmount(lines[j]).None? || LineAmount(lines[j]).value == 0;
    assert i == k;
  }

  /** With no positive labelled amount, the first standalone number of the
      whole message is used when there is one. */
  lemma ParseAmountFallback(message: string, today: Day)
    requires ValidDay(today)
    requires forall k :: 0 <= k < |Lines(message)| ==> LineAmount(Lines(message)[k]).None? || LineAmount(Lines(message)[k]).value == 0
    requires FallbackNumber(message).Some?
    ensures Parse(message, today).amount == FallbackNumber(message)
  {
    LabelledAmountMeaning(Lines(message), LineAmount);
  }

  /** With neither, the amount stays absent unless some line has a labelled
      zero, which is then kept. */
  lemma ParseAmountNone(message: string, today: Day)
    requires ValidDay(today)
    requires forall k :: 0 <= k < |Lines(message)| ==> LineAmount(Lines(message)[k]).None? || LineAmount(Lines(message)[k]).value == 0
    requires FallbackNumber(message).None?
    ensures Parse(message, today).amount.None? <==>
              forall k :: 0 <= k < |Lines(message)| ==> LineAmount(Lines(message)[k]).None?
    ensures Parse(message, today).amount.Some? ==> Parse(message, today).amount == Some(0)
  {
    LabelledAmountMeaning(Lines(message), LineAmount);
  }

  /** The fallback pattern matches at its leftmost position, and finds
      nothing only when no position starts a standalone number. */
  lemma FallbackLeftmost(message: string)
    ensures FallbackNumber(message).Some? ==>
              exists k :: 0 <= k <= |message| && FallbackAt(message, k) == FallbackNumber(message) &&
                          forall j :: 0 <= j < k ==> FallbackAt(message, j).None?
    ensures FallbackNumber(message).None? <==> forall k :: 0 <= k <= |message| ==> FallbackAt(message, k).None?
  {
    var at := FallbackAtIn(message);
    ScanLeftmost(|message|, 0, at);
    assert forall k :: 0 <= k <= |message| ==> at(k) == FallbackAt(message, k);
  }
}
