/** The WhatsApp message parser: pasted free text in, a draft expense out.
    Each regular expression of the source is an explicit scanner over the
    characters of a line; `String.prototype.match` is the leftmost start
    position at which the pattern matches, with the alternatives of the
    label tried in their written order. */
module Parser {
  import opened Util
  import opened Text
  import opened Calendar
  import opened Records

  /** The rupee sign, one of the amount labels. */
  const Rupee: char := '\U{20B9}'

  /** The parser's output: the amount in cents (absent when no number was
      found), a category from the fixed list, a `YYYY-MM-DD` date, the
      description and the tags joined with ", ". */
  datatype Draft = Draft(
    amount: Option<nat>,
    category: string,
    date: string,
    description: string,
    tags: string)

  // ---------------------------------------------------------------------
  // Scanning machinery

  /** The lower-case label occurs at position i of s, ignoring ASCII case
      (the `i` flag). */
  predicate LabelAt(s: string, i: nat, word: string)
    decreases |word|
  {
    word == [] || (i < |s| && LowerChar(s[i]) == word[0] && LabelAt(s, i + 1, word[1..]))
  }

  /** A non-empty label is present at i exactly when the characters from i
      on, lower-cased, spell it. */
  lemma {:induction false} LabelAtSpelled(s: string, i: nat, word: string)
    requires word != []
    ensures LabelAt(s, i, word) <==>
              i + |word| <= |s| && forall k :: 0 <= k < |word| ==> LowerChar(s[i + k]) == word[k]
    decreases |word|
  {
    if |word| > 1 {
      LabelAtSpelled(s, i + 1, word[1..]);
      if i + |word| <= |s| {
        assert forall k :: 1 <= k < |word| ==> word[k] == word[1..][k - 1] && s[i + k] == s[(i + 1) + (k - 1)];
      }
    }
  }

  /** The match of `(?:l1|l2|...)tail` starting exactly at i: the first
      label in order that is present at i and whose tail then matches. */
  function TryLabels<T>(s: string, i: nat, labels: seq<string>, tail: (string, nat) -> Option<T>): Option<T>
  {
    if labels == [] then None
    else if LabelAt(s, i, labels[0]) && tail(s, i + |labels[0]|).Some? then tail(s, i + |labels[0]|)
    else TryLabels(s, i, labels[1..], tail)
  }

  /** TryLabels succeeds exactly when some label present at i has a
      matching tail, and its result is that tail's. */
  lemma {:induction false} TryLabelsSome<T>(s: string, i: nat, labels: seq<string>, tail: (string, nat) -> Option<T>)
    ensures TryLabels(s, i, labels, tail).Some? ==>
              exists j :: 0 <= j < |labels| && LabelAt(s, i, labels[j]) &&
                          TryLabels(s, i, labels, tail) == tail(s, i + |labels[j]|)
    ensures TryLabels(s, i, labels, tail).None? <==>
              forall j :: 0 <= j < |labels| && LabelAt(s, i, labels[j]) ==> tail(s, i + |labels[j]|).None?
  {
    if labels != [] {
      TryLabelsSome(s, i, labels[1..], tail);
      assert forall j :: 1 <= j < |labels| ==> labels[j] == labels[1..][j - 1];
    }
  }

  /** The leftmost match: the result at the smallest start position from i
      up to n at which `at` matches. */
  function Scan<T>(n: nat, i: nat, at: nat -> Option<T>): Option<T>
    decreases n - i + 1
  {
    if i > n then None
    else if at(i).Some? then at(i)
    else Scan(n, i + 1, at)
  }

  /** Scan yields the match at the leftmost position that has one, and
      none when no position from i to n has one. */
  lemma {:induction false} ScanLeftmost<T>(n: nat, i: nat, at: nat -> Option<T>)
    ensures Scan(n, i, at).Some? ==> exists k :: i <= k <= n && at(k) == Scan(n, i, at) &&
                                                 forall j :: i <= j < k ==> at(j).None?
    ensures Scan(n, i, at).None? <==> forall k :: i <= k <= n ==> at(k).None?
    decreases n - i + 1
  {
    if i <= n && at(i).None? {
      ScanLeftmost(n, i + 1, at);
    }
  }

  /** The match of `(?:labels)tail` anywhere in s. */
  function Search<T>(s: string, labels: seq<string>, tail: (string, nat) -> Option<T>): Option<T>
  {
    Scan(|s|, 0, LabelsAt(s, labels, tail))
  }

  /** The pattern started at each position of s. */
  function LabelsAt<T>(s: string, labels: seq<string>, tail: (string, nat) -> Option<T>): nat -> Option<T>
  {
    (k: nat) => TryLabels(s, k, labels, tail)
  }

  /** A search result comes from the leftmost position at which some
      label is present and its tail matches. */
  lemma SearchFound<T>(s: string, labels: seq<string>, tail: (string, nat) -> Option<T>)
    requires Search(s, labels, tail).Some?
    ensures exists k, j :: 0 <= k <= |s| && 0 <= j < |labels| && LabelAt(s, k, labels[j]) &&
                           tail(s, k + |labels[j]|) == Search(s, labels, tail) &&
                           forall i :: 0 <= i < k ==> TryLabels(s, i, labels, tail).None?
  {
    var at := LabelsAt(s, labels, tail);
    ScanLeftmost(|s|, 0, at);
    assert Search(s, labels, tail) == Scan(|s|, 0, at);
    var k :| 0 <= k <= |s| && at(k) == Search(s, labels, tail) && forall i :: 0 <= i < k ==> at(i).None?;
    assert forall i :: 0 <= i < k ==> at(i) == TryLabels(s, i, labels, tail);
    TryLabelsSome(s, k, labels, tail);
    var j :| 0 <= j < |labels| && LabelAt(s, k, labels[j]) && TryLabels(s, k, labels, tail) == tail(s, k + |labels[j]|);
    assert tail(s, k + |labels[j]|) == Search(s, labels, tail);
  }

  /** A search finds nothing exactly when no label anywhere in s is
      followed by a matching tail. */
  lemma SearchNone<T>(s: string, labels: seq<string>, tail: (string, nat) -> Option<T>)
    ensures Search(s, labels, tail).None? <==>
              forall k, j :: 0 <= k <= |s| && 0 <= j < |labels| && LabelAt(s, k, labels[j]) ==>
                             tail(s, k + |labels[j]|).None?
  {
    if Search(s, labels, tail).None? {
      var at := LabelsAt(s, labels, tail);
      ScanLeftmost(|s|, 0, at);
      forall k, j | 0 <= k <= |s| && 0 <= j < |labels| && LabelAt(s, k, labels[j])
        ensures tail(s, k + |labels[j]|).None?
      {
        assert at(k) == TryLabels(s, k, labels, tail);
        TryLabelsSome(s, k, labels, tail);
      }
    } else {
      SearchFound(s, labels, tail);
    }
  }

  // ---------------------------------------------------------------------
  // The amount pattern `(?:expense|amount|₹|rs|rupees?)[:\s]*₹?\s*(\d+(?:\.\d{2})?)`

  const AmountLabels: seq<string> := ["expense", "amount", [Rupee], "rs", "rupees", "rupee"]

  /** The cents denoted by `\d+(?:\.\d{2})?` at position d, the digits taken
      greedily and the fraction only when exactly two digits follow the
      point, together with the end of the match. */
  function NumberAt(s: string, d: nat): (r: (nat, nat))
    requires d < |s| && IsDigit(s[d])
    ensures d < r.1 <= |s|
  {
    var j := SkipWhile(s, d, IsDigit);
    assert AllDigits(s[d..j]);
    var whole := DigitsValue(s[d..j]);
    if j + 2 < |s| && s[j] == '.' && IsDigit(s[j + 1]) && IsDigit(s[j + 2]) then
      (whole * 100 + DigitValue(s[j + 1]) * 10 + DigitValue(s[j + 2]), j + 3)
    else (whole * 100, j)
  }

  /** A run of digits that no further digit follows, and no point with two
      digits after it, reads as its value in whole units. */
  lemma NumberAtUnits(pre: string, digits: string, rest: string)
    requires digits != [] && AllDigits(digits)
    requires rest == [] || !IsDigit(rest[0])
    requires !(|rest| >= 3 && rest[0] == '.' && IsDigit(rest[1]) && IsDigit(rest[2]))
    ensures NumberAt(pre + digits + rest, |pre|).0 == DigitsValue(digits) * 100
    ensures NumberAt(pre + digits + rest, |pre|).1 == |pre| + |digits|
  {
    var s := pre + digits + rest;
    var e := |pre| + |digits|;
    assert s[|pre|..e] == digits && (e < |s| ==> !IsDigit(s[e])) &&
           !(e + 2 < |s| && s[e] == '.' && IsDigit(s[e + 1]) && IsDigit(s[e + 2])) by {
      DigitsRun(pre, digits, rest);
    }
    NumberAtRun(s, |pre|, e, digits);
  }

  /** A run of digits followed by a point and two digits reads as its value
      in whole units plus the two digits as hundredths. */
  lemma NumberAtFraction(pre: string, digits: string, rest: string)
    requires digits != [] && AllDigits(digits)
    requires |rest| >= 3 && rest[0] == '.' && IsDigit(rest[1]) && IsDigit(rest[2])
    ensures NumberAt(pre + digits + rest, |pre|).0 ==
              DigitsValue(digits) * 100 + DigitValue(rest[1]) * 10 + DigitValue(rest[2])
    ensures NumberAt(pre + digits + rest, |pre|).1 == |pre| + |digits| + 3
  {
    var s := pre + digits + rest;
    var e := |pre| + |digits|;
    assert s[|pre|..e] == digits && (e < |s| ==> !IsDigit(s[e])) &&
           e + 2 < |s| && s[e] == '.' && s[e + 1] == rest[1] && s[e + 2] == rest[2] by {
      DigitsRun(pre, digits, rest);
    }
    NumberAtRun(s, |pre|, e, digits);
  }

  /** In pre + digits + rest the digits form a run that ends where rest
      begins. */
  lemma DigitsRun(pre: string, digits: string, rest: string)
    requires AllDigits(digits)
    requires rest == [] || !IsDigit(rest[0])
    ensures (pre + digits + rest)[|pre|..|pre| + |digits|] == digits
    ensures rest != [] ==> (pre + digits + rest)[|pre| + |digits|] == rest[0]
    ensures |rest| >= 3 ==> (pre + digits + rest)[|pre| + |digits| + 1] == rest[1] &&
                            (pre + digits + rest)[|pre| + |digits| + 2] == rest[2]
  {
  }

  /** NumberAt over a run of digits from d up to e. */
  lemma NumberAtRun(s: string, d: nat, e: nat, digits: string)
    requires d < e <= |s| && s[d..e] == digits && AllDigits(digits)
    requires e < |s| ==> !IsDigit(s[e])
    ensures e + 2 < |s| && s[e] == '.' && IsDigit(s[e + 1]) && IsDigit(s[e + 2]) ==>
              NumberAt(s, d).0 == DigitsValue(digits) * 100 + DigitValue(s[e + 1]) * 10 + DigitValue(s[e + 2]) &&
              NumberAt(s, d).1 == e + 3
    ensures !(e + 2 < |s| && s[e] == '.' && IsDigit(s[e + 1]) && IsDigit(s[e + 2])) ==>
              NumberAt(s, d).0 == DigitsValue(digits) * 100 && NumberAt(s, d).1 == e
  {
    assert forall k :: d <= k < e ==> s[k] == digits[k - d];
    SkipRun(s, d, e, IsDigit);
  }

  /** SkipWhile stops at the end of the run of p it starts on. */
  lemma SkipRun(s: string, d: nat, e: nat, p: char -> bool)
    requires d <= e <= |s|
    requires forall k :: d <= k < e ==> p(s[k])
    requires e < |s| ==> !p(s[e])
    ensures SkipWhile(s, d, p) == e
  {
  }

  /** A number of at most two digits is written with at most two. */
  lemma NatToStringShort(n: nat)
    requires n < 100
    ensures |NatToString(n)| <= 2
  {
    if n >= 10 {
      assert NatToString(n / 10) == [DigitChar(n / 10)];
    }
  }

  /** Writing n with toString and reading it back gives n whole units. */
  lemma NumberAtWhole(pre: string, n: nat, rest: string)
    requires rest == [] || (!IsDigit(rest[0]) && rest[0] != '.')
    ensures NumberAt(pre + NatToString(n) + rest, |pre|).0 == n * 100
    ensures NumberAt(pre + NatToString(n) + rest, |pre|).1 == |pre| + |NatToString(n)|
  {
    NatToStringFacts(n);
    NumberAtUnits(pre, NatToString(n), rest);
  }

  /** An amount in cents written as its units, a point and two digits
      reads back as the same cents. */
  lemma NumberAtCents(pre: string, c: nat, rest: string)
    requires rest == [] || !IsDigit(rest[0])
    ensures NumberAt(pre + NatToString(c / 100) + "." + Pad(c % 100, 2) + rest, |pre|).0 == c
  {
    var units := NatToString(c / 100);
    var fraction := Pad(c % 100, 2);
    TwoDigits(c % 100);
    NatToStringFacts(c / 100);
    var after := "." + fraction + rest;
    assert pre + units + "." + fraction + rest == pre + units + after;
    NumberAtFraction(pre, units, after);
  }

  /** A number below 100 padded to two places is two digits denoting it. */
  lemma TwoDigits(m: nat)
    requires m < 100
    ensures |Pad(m, 2)| == 2 && AllDigits(Pad(m, 2))
    ensures DigitValue(Pad(m, 2)[0]) * 10 + DigitValue(Pad(m, 2)[1]) == m
  {
    var f := Pad(m, 2);
    NatToStringShort(m);
    PadFacts(m, 2);
    assert f[..1][..0] == [];
    assert DigitsValue(f) == DigitValue(f[0]) * 10 + DigitValue(f[1]);
  }

  /** What follows an amount label: `[:\s]*` then an optional rupee sign
      then `\s*` then the number. Giving back separators never helps, as
      none of them is a digit or the rupee sign. */
  function AmountTail(s: string, p: nat): Option<nat>
  {
    if p > |s| then None
    else
      var q := SkipWhile(s, p, IsSeparator);
      if q < |s| && IsDigit(s[q]) then Some(NumberAt(s, q).0)
      else if q < |s| && s[q] == Rupee then
        var r := SkipWhile(s, q + 1, IsSpace);
        if r < |s| && IsDigit(s[r]) then Some(NumberAt(s, r).0) else None
      else None
  }

  /** The labelled amount of one line, in cents. */
  function LineAmount(line: string): Option<nat>
  {
    Search(line, AmountLabels, AmountTail)
  }

  /** A line that opens with "amount: " and a whole number gives that
      number (in cents). */
  lemma LineAmountWritten(n: nat, rest: string)
    requires rest == [] || (!IsDigit(rest[0]) && rest[0] != '.')
    ensures LineAmount("amount: " + NatToString(n) + rest) == Some(n * 100)
  {
    var s := "amount: " + NatToString(n) + rest;
    assert LabelAt(s, 0, "amount") by {
      assert s[0] == 'a' && s[1] == 'm' && s[2] == 'o' && s[3] == 'u' && s[4] == 'n' && s[5] == 't';
      LabelAtSpelled(s, 0, "amount");
    }
    assert !LabelAt(s, 0, "expense") by {
      assert s[0] == 'a';
    }
    AmountTailWritten(n, rest);
    var labels := AmountLabels;
    assert labels[0] == "expense" && labels[1..][0] == "amount";
    assert TryLabels(s, 0, labels, AmountTail) == Some(n * 100);
    assert LabelsAt(s, labels, AmountTail)(0) == Some(n * 100);
  }

  /** After the label, the separators are skipped and the number read. */
  lemma AmountTailWritten(n: nat, rest: string)
    requires rest == [] || (!IsDigit(rest[0]) && rest[0] != '.')
    ensures AmountTail("amount: " + NatToString(n) + rest, 6) == Some(n * 100)
  {
    var s := "amount: " + NatToString(n) + rest;
    assert s[6] == ':' && s[7] == ' ' && s[8] == NatToString(n)[0];
    SkipRun(s, 6, 8, IsSeparator);
    NumberAtWhole("amount: ", n, rest);
  }

  // ---------------------------------------------------------------------
  // The patterns `(?:labels)[:\s]+(.+)` of category, description and tags

  const CategoryLabels: seq<string> := ["category", "cat"]
  const DescriptionLabels: seq<string> := ["description", "desc", "note", "details"]
  const TagLabels: seq<string> := ["tags", "tag", "label"]

  predicate NotLineTerminator(c: char) { !IsLineTerminator(c) }

  /** `.+` when the separator run `[:\s]+` is taken to end at k, trying k
      from the longest run down to a run of one character. */
  function RestFrom(s: string, p: nat, k: nat): (r: Option<string>)
    requires p < k <= |s|
    ensures r.Some? ==> r.value != []
    decreases k
  {
    if k < |s| && NotLineTerminator(s[k]) then Some(s[k..SkipWhile(s, k, NotLineTerminator)])
    else if k - 1 > p then RestFrom(s, p, k - 1)
    else None
  }

  /** What follows a label: at least one separator, then the rest of the
      line up to a line terminator. */
  function RestTail(s: string, p: nat): (r: Option<string>)
    ensures r.Some? ==> r.value != []
  {
    if p >= |s| then None
    else
      var q := SkipWhile(s, p, IsSeparator);
      if q == p then None else RestFrom(s, p, q)
  }

  function CategoryCapture(line: string): Option<string> { Search(line, CategoryLabels, RestTail) }
  function DescriptionCapture(line: string): Option<string> { Search(line, DescriptionLabels, RestTail) }
  function TagsCapture(line: string): Option<string> { Search(line, TagLabels, RestTail) }

  // ---------------------------------------------------------------------
  // The date pattern `(?:date|on)[:\s]+(\d{4}-\d{2}-\d{2}|\d{2}\/\d{2}\/\d{4}|\d{2}-\d{2}-\d{4})`

  const DateLabels: seq<string> := ["date", "on"]

  /** `dd/dd/dddd` */
  predicate SlashShape(t: string) {
    && |t| == 10
    && AllDigits(t[0..2]) && t[2] == '/'
    && AllDigits(t[3..5]) && t[5] == '/'
    && AllDigits(t[6..10])
  }

  /** `dd-dd-dddd` */
  predicate DashShape(t: string) {
    && |t| == 10
    && AllDigits(t[0..2]) && t[2] == '-'
    && AllDigits(t[3..5]) && t[5] == '-'
    && AllDigits(t[6..10])
  }

  /** One of the three date shapes the pattern accepts. */
  predicate DateToken(t: string) {
    IsoShape(t) || SlashShape(t) || DashShape(t)
  }

  /** What follows a date label: at least one separator, then a date token.
      A shorter separator run would leave a separator where a digit is
      needed, so only the longest run can succeed. */
  function DateTail(s: string, p: nat): (r: Option<string>)
    ensures r.Some? ==> DateToken(r.value)
  {
    if p >= |s| then None
    else
      var q := SkipWhile(s, p, IsSeparator);
      if q == p || q + 10 > |s| then None
      else if DateToken(s[q..q + 10]) then Some(s[q..q + 10])
      else None
  }

  /** The captured date token of one line. */
  function DateCapture(line: string): (r: Option<string>)
    ensures r.Some? ==> DateToken(r.value)
  {
    if Search(line, DateLabels, DateTail).Some? then
      SearchFound(line, DateLabels, DateTail);
      Search(line, DateLabels, DateTail)
    else None
  }

  /** The source's reordering of a captured token into `YYYY-MM-DD`: a
      token with a slash is split on '/' and its parts reversed; a token of
      ten characters whose first '-'-part has two characters likewise;
      anything else is kept. */
  function NormalizeDate(t: string): string
  {
    if '/' in t then
      var parts := Split(t, '/');
      if |parts| >= 3 then parts[2] + "-" + parts[1] + "-" + parts[0] else t
    else if '-' in t && |t| == 10 && |Split(t, '-')[0]| == 2 then
      var parts := Split(t, '-');
      if |parts| >= 3 then parts[2] + "-" + parts[1] + "-" + parts[0] else t
    else t
  }

  lemma DigitsHaveNoSeparator(t: string, i: nat, j: nat, c: char)
    requires i <= j <= |t| && AllDigits(t[i..j]) && !IsDigit(c)
    ensures c !in t[i..j]
  {
  }

  /** The pieces of a ten-character token with separator c at positions 2
      and 5 and digits elsewhere. */
  lemma SplitToken(t: string, c: char)
    requires |t| == 10 && t[2] == c && t[5] == c && !IsDigit(c)
    requires AllDigits(t[0..2]) && AllDigits(t[3..5]) && AllDigits(t[6..10])
    ensures Split(t, c) == [t[0..2], t[3..5], t[6..10]]
  {
    DigitsHaveNoSeparator(t, 0, 2, c);
    DigitsHaveNoSeparator(t, 3, 5, c);
    DigitsHaveNoSeparator(t, 6, 10, c);
    assert t == t[0..2] + [c] + (t[3..5] + [c] + t[6..10]);
    SplitCons(t[0..2], t[3..5] + [c] + t[6..10], c);
    SplitCons(t[3..5], t[6..10], c);
    SplitNone(t[6..10], c);
  }

  /** Normalisation turns `dd/mm/yyyy` and `dd-mm-yyyy` into `yyyy-mm-dd`
      and keeps `yyyy-mm-dd`; every accepted token ends up in the shape
      `dddd-dd-dd`. */
  lemma NormalizeDateCorrect(t: string)
    requires DateToken(t)
    ensures IsoShape(NormalizeDate(t))
    ensures IsoShape(t) ==> NormalizeDate(t) == t
    ensures SlashShape(t) || DashShape(t) ==>
              NormalizeDate(t) == t[6..10] + "-" + t[3..5] + "-" + t[0..2]
  {
    if SlashShape(t) {
      NormalizeSlash(t);
    } else if DashShape(t) {
      NormalizeDash(t);
    } else {
      NormalizeIso(t);
    }
  }

  lemma ReorderedShape(t: string)
    requires |t| == 10 && AllDigits(t[0..2]) && AllDigits(t[3..5]) && AllDigits(t[6..10])
    ensures IsoShape(t[6..10] + "-" + t[3..5] + "-" + t[0..2])
  {
    var n := t[6..10] + "-" + t[3..5] + "-" + t[0..2];
    assert n[0..4] == t[6..10] && n[5..7] == t[3..5] && n[8..10] == t[0..2];
  }

  lemma NormalizeSlash(t: string)
    requires SlashShape(t)
    ensures NormalizeDate(t) == t[6..10] + "-" + t[3..5] + "-" + t[0..2]
    ensures IsoShape(NormalizeDate(t))
  {
    assert '/' in t by { assert t[2] == '/'; }
    SplitToken(t, '/');
    ReorderedShape(t);
  }

  lemma NormalizeDash(t: string)
    requires DashShape(t)
    ensures NormalizeDate(t) == t[6..10] + "-" + t[3..5] + "-" + t[0..2]
    ensures IsoShape(NormalizeDate(t))
  {
    assert '-' in t by { assert t[2] == '-'; }
    assert '/' !in t by {
      forall k | 0 <= k < 10 ensures t[k] != '/' {
        if k < 2 { assert t[k] == t[0..2][k]; }
        else if 2 < k < 5 { assert t[k] == t[3..5][k - 3]; }
        else if 5 < k { assert t[k] == t[6..10][k - 6]; }
      }
    }
    SplitToken(t, '-');
    ReorderedShape(t);
  }

  lemma NormalizeIso(t: string)
    requires IsoShape(t)
    ensures NormalizeDate(t) == t
  {
    assert '/' !in t by {
      forall k | 0 <= k < 10 ensures t[k] != '/' {
        if k < 4 { assert t[k] == t[0..4][k]; }
        else if 4 < k < 7 { assert t[k] == t[5..7][k - 5]; }
        else if 7 < k { assert t[k] == t[8..10][k - 8]; }
      }
    }
    DigitsHaveNoSeparator(t, 0, 4, '-');
    assert t == t[0..4] + ['-'] + t[5..];
    SplitCons(t[0..4], t[5..], '-');
  }

  // ---------------------------------------------------------------------
  // What each line contributes

  /** The category a line sets: its trimmed capture, when that is one of
      the category labels exactly. */
  function LineCategory(line: string): Option<string>
  {
    match CategoryCapture(line)
    case Some(c) => if Trim(c) in Categories then Some(Trim(c)) else None
    case None => None
  }

  /** The normalised date a line sets. */
  function LineDate(line: string): Option<string>
  {
    match DateCapture(line)
    case Some(t) => Some(NormalizeDate(t))
    case None => None
  }

  /** The description a line sets: its trimmed capture, when not empty. */
  function LineDescription(line: string): Option<string>
  {
    match DescriptionCapture(line)
    case Some(c) => if Trim(c) != "" then Some(Trim(c)) else None
    case None => None
  }

  /** A category a line sets is one of the fixed labels, a date is in the
      shape `dddd-dd-dd`, and a description is not empty. */
  lemma LineFieldsShape(line: string)
    ensures LineCategory(line).Some? ==> LineCategory(line).value in Categories
    ensures LineDate(line).Some? ==> IsoShape(LineDate(line).value)
    ensures LineDescription(line).Some? ==> LineDescription(line).value != ""
  {
    if DateCapture(line).Some? {
      NormalizeDateCorrect(DateCapture(line).value);
    }
  }

  /** `split(',').map(t => t.trim()).filter(t => t)` */
  function SplitTags(text: string): seq<string>
  {
    Keep(TrimAll(Split(text, ',')), NonEmpty)
  }

  /** The tags are exactly the non-empty trimmed comma-separated pieces:
      each tag is one, non-empty, trimmed and free of commas, and every
      piece that trims to something non-empty is kept. */
  lemma SplitTagsShape(text: string)
    ensures forall i :: 0 <= i < |SplitTags(text)| ==>
              var t := SplitTags(text)[i]; t != "" && ',' !in t && Trim(t) == t
    ensures forall t :: t in SplitTags(text) ==> t in TrimAll(Split(text, ','))
    ensures forall i :: 0 <= i < |Split(text, ',')| && Trim(Split(text, ',')[i]) != "" ==>
              Trim(Split(text, ',')[i]) in SplitTags(text)
  {
    TagsClean(text);
    KeptPieces(Split(text, ','));
  }

  /** Each tag is non-empty, trimmed and free of commas. */
  lemma TagsClean(text: string)
    ensures forall i :: 0 <= i < |SplitTags(text)| ==>
              var t := SplitTags(text)[i]; t != "" && ',' !in t && Trim(t) == t
  {
    var parts := Split(text, ',');
    var trimmed := TrimAll(parts);
    TrimAllShape(parts, ',');
    KeepMembers(trimmed, NonEmpty);
    assert forall i :: 0 <= i < |SplitTags(text)| ==> SplitTags(text)[i] in trimmed;
  }

  /** Trimming pieces free of c leaves trimmed pieces free of c. */
  lemma TrimAllShape(parts: seq<string>, c: char)
    requires forall i :: 0 <= i < |parts| ==> c !in parts[i]
    ensures forall x :: x in TrimAll(parts) ==> c !in x && Trim(x) == x
  {
    forall x | x in TrimAll(parts) ensures c !in x && Trim(x) == x {
      var i :| 0 <= i < |parts| && TrimAll(parts)[i] == x;
      TrimKeepsOut(parts[i], c);
      TrimIdempotent(parts[i]);
    }
  }

  predicate NonEmpty(s: string) { s != "" }

  /** `map(t => t.trim()).filter(t => t)` keeps exactly the pieces that
      trim to something non-empty, trimmed. */
  lemma KeptPieces(parts: seq<string>)
    ensures forall t :: t in Keep(TrimAll(parts), NonEmpty) ==> t in TrimAll(parts)
    ensures forall i :: 0 <= i < |parts| && Trim(parts[i]) != "" ==> Trim(parts[i]) in Keep(TrimAll(parts), NonEmpty)
  {
    var trimmed := TrimAll(parts);
    var kept := Keep(trimmed, NonEmpty);
    KeepMembers(trimmed, NonEmpty);
    forall i | 0 <= i < |parts| && Trim(parts[i]) != "" ensures Trim(parts[i]) in kept {
      assert trimmed[i] == Trim(parts[i]);
      assert NonEmpty(trimmed[i]);
    }
  }

  /** The tags a line sets (possibly none, which still overwrites). */
  function LineTags(line: string): Option<seq<string>>
  {
    match TagsCapture(line)
    case Some(c) => Some(SplitTags(c))
    case None => None
  }

  // ---------------------------------------------------------------------
  // The message as a whole

  /** `message.split('\n').map(line => line.trim()).filter(line => line)` */
  function Lines(message: string): seq<string>
  {
    Keep(TrimAll(Split(message, '\n')), NonEmpty)
  }

  /** The lines the loop visits are exactly the non-empty trimmed pieces
      of the message between line feeds: each is non-empty and trimmed, and
      every piece that trims to something non-empty is visited. */
  lemma LinesTrimmed(message: string)
    ensures forall i :: 0 <= i < |Lines(message)| ==> Lines(message)[i] != "" && Trim(Lines(message)[i]) == Lines(message)[i]
    ensures forall t :: t in Lines(message) ==> t in TrimAll(Split(message, '\n'))
    ensures forall i :: 0 <= i < |Split(message, '\n')| && Trim(Split(message, '\n')[i]) != "" ==>
              Trim(Split(message, '\n')[i]) in Lines(message)
  {
    LinesClean(message);
    KeptPieces(Split(message, '\n'));
  }

  /** Each visited line is non-empty and trimmed. */
  lemma LinesClean(message: string)
    ensures forall i :: 0 <= i < |Lines(message)| ==> Lines(message)[i] != "" && Trim(Lines(message)[i]) == Lines(message)[i]
  {
    var parts := Split(message, '\n');
    var trimmed := TrimAll(parts);
    KeepMembers(trimmed, NonEmpty);
    forall x | x in trimmed ensures Trim(x) == x {
      var i :| 0 <= i < |trimmed| && trimmed[i] == x;
      TrimIdempotent(parts[i]);
    }
  }

  /** The amount as the line loop leaves it: a line's labelled amount is
      taken while none is held or the one held is zero (`!amount`).
      Defined from the last line backwards, the way the loop extends the
      lines it has seen. */
  function LabelledAmount(lines: seq<string>, amountOf: string -> Option<nat>): Option<nat>
  {
    if lines == [] then None
    else
      var held := LabelledAmount(lines[..|lines| - 1], amountOf);
      var found := amountOf(lines[|lines| - 1]);
      if found.Some? && (held.None? || held.value == 0) then found else held
  }

  lemma LabelledAmountSnoc(lines: seq<string>, line: string, amountOf: string -> Option<nat>)
    ensures LabelledAmount(lines + [line], amountOf) ==
              var held := LabelledAmount(lines, amountOf);
              var found := amountOf(line);
              if found.Some? && (held.None? || held.value == 0) then found else held
  {
    assert (lines + [line])[..|lines|] == lines;
  }

  /** What the `!amount` guard amounts to: the first positive labelled
      amount wins; with none, a labelled zero is kept; with no labelled
      amount at all, there is none. */
  lemma {:induction false} LabelledAmountMeaning(lines: seq<string>, amountOf: string -> Option<nat>)
    ensures LabelledAmount(lines, amountOf).None? <==> forall k :: 0 <= k < |lines| ==> amountOf(lines[k]).None?
    ensures LabelledAmount(lines, amountOf) == Some(0) <==>
              (exists k :: 0 <= k < |lines| && amountOf(lines[k]) == Some(0)) &&
              forall k :: 0 <= k < |lines| ==> amountOf(lines[k]).None? || amountOf(lines[k]).value == 0
    ensures LabelledAmount(lines, amountOf).Some? && LabelledAmount(lines, amountOf).value > 0 ==>
              exists k :: 0 <= k < |lines| && amountOf(lines[k]) == LabelledAmount(lines, amountOf) &&
                          forall j :: 0 <= j < k ==> amountOf(lines[j]).None? || amountOf(lines[j]).value == 0
  {
    if lines != [] {
      var n := |lines| - 1;
      var init := lines[..n];
      LabelledAmountMeaning(init, amountOf);
      assert forall k :: 0 <= k < n ==> lines[k] == init[k];
      var held := LabelledAmount(init, amountOf);
      if held.Some? && held.value > 0 {
        var k :| 0 <= k < n && amountOf(init[k]) == held &&
                 forall j :: 0 <= j < k ==> amountOf(init[j]).None? || amountOf(init[j]).value == 0;
        assert amountOf(lines[k]) == LabelledAmount(lines, amountOf);
      } else if held == Some(0) {
        var k :| 0 <= k < n && amountOf(init[k]) == Some(0);
        assert amountOf(lines[k]) == Some(0);
      }
    }
  }

  /** The fallback pattern `\b(\d+(?:\.\d{2})?)\b` started at position i:
      i must begin a run of digits; the two-digit fraction is taken when a
      boundary follows it, and otherwise the whole part alone when a
      boundary follows that. */
  function FallbackAt(s: string, i: nat): Option<nat>
  {
    if i < |s| && IsDigit(s[i]) && (i == 0 || !IsWordChar(s[i - 1])) then
      var j := SkipWhile(s, i, IsDigit);
      assert AllDigits(s[i..j]);
      var whole := DigitsValue(s[i..j]);
      if j + 2 < |s| && s[j] == '.' && IsDigit(s[j + 1]) && IsDigit(s[j + 2]) &&
         (j + 3 == |s| || !IsWordChar(s[j + 3])) then
        Some(whole * 100 + DigitValue(s[j + 1]) * 10 + DigitValue(s[j + 2]))
      else if j == |s| || !IsWordChar(s[j]) then Some(whole * 100)
      else None
    else None
  }

  /** The first standalone number of the whole message, in cents. */
  function FallbackNumber(message: string): Option<nat>
  {
    Scan(|message|, 0, FallbackAtIn(message))
  }

  function FallbackAtIn(message: string): nat -> Option<nat>
  {
    (k: nat) => FallbackAt(message, k)
  }

  /** One row of the keyword table. */
  datatype KeywordEntry = KeywordEntry(category: string, keywords: seq<string>)

  /** The keyword table, in its iteration order; Other has no row. */
  const KeywordTable: seq<KeywordEntry> := [
    KeywordEntry("Food", ["food", "grocery", "restaurant", "lunch", "dinner", "breakfast", "eat"]),
    KeywordEntry("Transportation", ["transport", "taxi", "uber", "fuel", "petrol", "diesel", "bus", "train", "metro"]),
    KeywordEntry("Entertainment", ["movie", "cinema", "game", "entertainment", "fun", "party"]),
    KeywordEntry("Bills", ["bill", "electricity", "water", "internet", "phone", "utility"]),
    KeywordEntry("Shopping", ["shopping", "shop", "buy", "purchase", "mall"]),
    KeywordEntry("Healthcare", ["health", "medicine", "doctor", "hospital", "pharmacy", "medical"]),
    KeywordEntry("Education", ["education", "book", "course", "tuition", "school", "college"])
  ]

  lemma KeywordTableCategories()
    ensures forall i :: 0 <= i < |KeywordTable| ==> KeywordTable[i].category in Categories
  {
  }

  /** One of the row's keywords occurs in the lower-cased message
      (`keywords.some(keyword => lowerMessage.includes(keyword))`). */
  predicate RowHits(lower: string, e: KeywordEntry) {
    exists k :: 0 <= k < |e.keywords| && Contains(lower, e.keywords[k])
  }

  /** The row's category when it hits. */
  function KeywordHit(lower: string, e: KeywordEntry): Option<string>
  {
    if RowHits(lower, e) then Some(e.category) else None
  }

  function HitIn(lower: string): KeywordEntry -> Option<string>
  {
    e => KeywordHit(lower, e)
  }

  /** The category inferred from the keyword table: the first row with a
      keyword in the message. */
  function InferCategory(lower: string): Option<string>
  {
    First(KeywordTable, HitIn(lower))
  }

  /** An inferred category is one of the fixed labels. */
  lemma InferCategoryIn(lower: string)
    ensures InferCategory(lower).Some? ==> InferCategory(lower).value in Categories
  {
    KeywordTableCategories();
    if InferCategory(lower).Some? {
      FirstIsEarliest(KeywordTable, HitIn(lower));
    }
  }

  function ValueOr<T>(o: Option<T>, default: T): T
  {
    match o
    case Some(v) => v
    case None => default
  }

  /** What parseWhatsAppMessage returns for a message, given today's date. */
  function Parse(message: string, today: Day): Draft
    requires ValidDay(today)
  {
    var lines := Lines(message);
    var labelled := LabelledAmount(lines, LineAmount);
    var amount :=
      if labelled.None? || labelled.value == 0 then
        (var n := FallbackNumber(message); if n.Some? then n else labelled)
      else labelled;
    var category :=
      match First(lines, LineCategory)
      case Some(c) => c
      case None => ValueOr(InferCategory(Lower(message)), "Other");
    var date := ValueOr(First(lines, LineDate), IsoDate(today));
    var description := ValueOr(First(lines, LineDescription), "");
    var tags := ValueOr(Last(lines, LineTags), []);
    Draft(amount, category, date, description, Join(tags, ", "))
  }

  /** The line loop of parseWhatsAppMessage. The five line patterns are
      parameters (what each line contributes to the amount, category, date,
      description and tags), so that the loop is proved once for whatever
      they match: the amount under the `!amount` guard, the category, date
      and description on their first match (a description is never set to
      empty, so `!description` means "not yet set"), the tags on every
      match. */
  method ScanLines(lines: seq<string>, amountOf: string -> Option<nat>, categoryOf: string -> Option<string>,
                   dateOf: string -> Option<string>, descriptionOf: string -> Option<string>,
                   tagsOf: string -> Option<seq<string>>)
    returns (amount: Option<nat>, category: Option<string>, date: Option<string>, description: string, tags: seq<string>)
    requires forall line :: descriptionOf(line) != Some("")
    ensures amount == LabelledAmount(lines, amountOf)
    ensures category == First(lines, categoryOf)
    ensures date == First(lines, dateOf)
    ensures description == ValueOr(First(lines, descriptionOf), "")
    ensures tags == ValueOr(Last(lines, tagsOf), [])
  {
    amount, category, date, description, tags := None, None, None, "", [];
    var i := 0;
    while i < |lines|
      invariant 0 <= i <= |lines|
      invariant amount == LabelledAmount(lines[..i], amountOf)
      invariant category == First(lines[..i], categoryOf)
      invariant date == First(lines[..i], dateOf)
      invariant First(lines[..i], descriptionOf) != Some("")
      invariant description == ValueOr(First(lines[..i], descriptionOf), "")
      invariant tags == ValueOr(Last(lines[..i], tagsOf), [])
    {
      var line := lines[i];
      assert lines[..i + 1] == lines[..i] + [line];
      LabelledAmountSnoc(lines[..i], line, amountOf);
      FirstSnoc(lines[..i], line, categoryOf);
      FirstSnoc(lines[..i], line, dateOf);
      FirstSnoc(lines[..i], line, descriptionOf);
      LastSnoc(lines[..i], line, tagsOf);

      var amountMatch := amountOf(line);
      if amountMatch.Some? && (amount.None? || amount.value == 0) {
        amount := amountMatch;
      }
      var categoryMatch := categoryOf(line);
      if categoryMatch.Some? && category.None? {
        category := categoryMatch;
      }
      var dateMatch := dateOf(line);
      if dateMatch.Some? && date.None? {
        date := dateMatch;
      }
      var descMatch := descriptionOf(line);
      if descMatch.Some? && description == "" {
        description := descMatch.value;
      }
      var tagsMatch := tagsOf(line);
      if tagsMatch.Some? {
        tags := tagsMatch.value;
      }
      i := i + 1;
    }
    assert lines[..|lines|] == lines;
  }

  /** The keyword lookup: the first row of the table, in order, with a
      keyword occurring in the lower-cased message. */
  method MatchKeywords(lower: string) returns (category: Option<string>)
    ensures category == InferCategory(lower)
  {
    category := None;
    var k := 0;
    while k < |KeywordTable|
      invariant 0 <= k <= |KeywordTable|
      invariant forall j :: 0 <= j < k ==> KeywordHit(lower, KeywordTable[j]).None?
    {
      if KeywordHit(lower, KeywordTable[k]).Some? {
        FirstAt(KeywordTable, HitIn(lower), k);
        return Some(KeywordTable[k].category);
      }
      k := k + 1;
    }
    FirstNone(KeywordTable, HitIn(lower));
  }

  /** parseWhatsAppMessage: one pass over the lines, then the fallbacks for
      amount, date and category. */
  method ParseWhatsAppMessage(message: string, today: Day) returns (draft: Draft)
    requires ValidDay(today)
    ensures draft == Parse(message, today)
  {
    var lines := Lines(message);
    forall line ensures LineDescription(line) != Some("") {
      LineFieldsShape(line);
    }
    var amount, category, date, description, tags :=
      ScanLines(lines, LineAmount, LineCategory, LineDate, LineDescription, LineTags);

    if amount.None? || amount.value == 0 {
      var numberMatch := FallbackNumber(message);
      if numberMatch.Some? {
        amount := numberMatch;
      }
    }

    var dateStr := if date.None? then IsoDate(today) else date.value;

    if category.None? {
      category := MatchKeywords(Lower(message));
    }
    if category.None? {
      category := Some("Other");
    }

    draft := Draft(amount, category.value, dateStr, description, Join(tags, ", "));
  }
}
