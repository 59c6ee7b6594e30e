/**
 * The deterministic helpers of the keyword optimizer: cleaning and
 * validating the keywords a language model proposed, the fallback that
 * splits the original query when the model is unavailable, and the
 * extraction of keywords from a reply that is not valid JSON.
 */
module Keywords {
  import opened Wrappers
  import opened PyText

  /** The quote characters `strip('"\'""''')` removes and `["""\']` matches:
      the ASCII double and single quote. */
  predicate IsQuote(c: char) {
    c == '"' || c == '\''
  }

  /** Phrases too formal for the target platform; a keyword containing one
      is rejected. */
  const BannedWords: set<string> := {
    "态度分析", "公众反应", "情绪倾向",
    "未来展望", "发展趋势", "战略规划", "政策导向", "管理机制"
  }

  /** The longest keyword kept, in characters. */
  const MaxKeywordLength: nat := 20

  /** The most keywords returned. */
  const MaxKeywords: nat := 20

  /** Python's `s[:n]`. */
  function Take<T>(s: seq<T>, n: nat): (r: seq<T>)
    ensures |r| <= n && r <= s
    ensures |s| <= n ==> r == s
  {
    if |s| <= n then s else s[..n]
  }

  /** `keyword.strip().strip('"\'""''')`. */
  function CleanKeyword(s: string): (k: string)
    ensures k != [] ==> !IsQuote(k[0]) && !IsQuote(k[|k| - 1])
  {
    Trim(Strip(s), IsQuote)
  }

  /** The length check both cleaners apply. */
  predicate ReasonableLength(k: string) {
    k != [] && |k| <= MaxKeywordLength
  }

  /** Whether `k` contains a banned phrase. */
  predicate HasBannedWord(k: string) {
    exists b :: b in BannedWords && ContainsSub(k, b)
  }

  /** Whether a cleaned keyword passes `_validate_keywords`. */
  predicate Acceptable(k: string) {
    ReasonableLength(k) && 1 <= |k| && !HasBannedWord(k)
  }

  // ---------------------------------------------------------------------
  // _validate_keywords

  /** An element of the model's keyword list: text, or any other JSON value. */
  datatype KeywordItem = Text(s: string) | NonText

  /** The keyword validation keeps for one item, if any. */
  function ValidKeyword(item: KeywordItem): Option<string> {
    if item.Text? && Acceptable(CleanKeyword(item.s)) then Some(CleanKeyword(item.s)) else None
  }

  /** The cleaned, accepted keywords of `items`, in order. */
  function Validated(items: seq<KeywordItem>): seq<string> {
    FilterMap(items, ValidKeyword)
  }

  /** `_validate_keywords`. */
  method ValidateKeywords(keywords: seq<KeywordItem>) returns (result: seq<string>)
    ensures result == Take(Validated(keywords), MaxKeywords)
  {
    var validated: seq<string> := [];
    for i := 0 to |keywords|
      invariant validated == Validated(keywords[..i])
    {
      assert keywords[..i + 1][..i] == keywords[..i];
      var item := keywords[i];
      ghost var step := Validated(keywords[..i + 1]);
      assert step == validated + (match ValidKeyword(item) case Some(y) => [y] case None => []);
      if item.Text? {
        var keyword := Trim(Strip(item.s), IsQuote);
        if keyword != [] && |keyword| <= MaxKeywordLength && |keyword| >= 1
          && !(exists b :: b in BannedWords && ContainsSub(keyword, b))
        {
          assert ValidKeyword(item) == Some(keyword);
          validated := validated + [keyword];
        } else {
          assert ValidKeyword(item) == None;
        }
      }
    }
    assert keywords[..|keywords|] == keywords;
    result := Take(validated, MaxKeywords);
  }

  /** What validation returns: at most twenty keywords, each accepted (non-empty,
      at most twenty characters, free of banned phrases) and without a quote at
      either end, drawn from the text items in order. */
  lemma ValidateKeywordsShape(items: seq<KeywordItem>)
    ensures var r := Take(Validated(items), MaxKeywords);
      && |r| <= MaxKeywords
      && r <= Validated(items)
      && forall k :: k in r ==>
           Acceptable(k) && !IsQuote(k[0]) && !IsQuote(k[|k| - 1])
           && exists i :: 0 <= i < |items| && items[i].Text? && CleanKeyword(items[i].s) == k
  {
    var r := Take(Validated(items), MaxKeywords);
    forall k | k in r
      ensures Acceptable(k) && !IsQuote(k[0]) && !IsQuote(k[|k| - 1])
      ensures exists i :: 0 <= i < |items| && items[i].Text? && CleanKeyword(items[i].s) == k
    {
      assert k in Validated(items);
      FilterMapMember(items, ValidKeyword, k);
      var i :| 0 <= i < |items| && ValidKeyword(items[i]) == Some(k);
    }
  }

  /** With at most twenty accepted keywords, none is lost. */
  lemma ValidateKeepsAllWhenFew(items: seq<KeywordItem>)
    requires |Validated(items)| <= MaxKeywords
    ensures Take(Validated(items), MaxKeywords) == Validated(items)
  {
  }

  // ---------------------------------------------------------------------
  // _fallback_keyword_extraction

  /** The separators of the fallback split, `[\s，。！？；：、]`. */
  predicate IsQuerySeparator(c: char) {
    IsSpace(c) || c in "，。！？；：、"
  }

  /** The stop words of the fallback. */
  const StopWords: set<string> := {"、"}

  /** The keyword the fallback keeps for a token, if any: the stripped token
      when it is not a stop word and has at least two characters. */
  predicate KeepToken(token: string) {
    var t := Strip(token);
    t != [] && t !in StopWords && |t| >= 2
  }

  /** The keyword a token yields, if any. */
  function TokenKeyword(token: string): Option<string> {
    if KeepToken(token) then Some(Strip(token)) else None
  }

  /** The kept tokens, stripped, in order. */
  function KeptTokens(tokens: seq<string>): seq<string> {
    FilterMap(tokens, TokenKeyword)
  }

  /** `_fallback_keyword_extraction(query)`: the split's tokens of two or more
      characters, else the first whitespace-separated word, else the query
      itself, else a default; at most twenty. */
  function Fallback(query: string): seq<string> {
    var keywords := KeptTokens(Fields(query, IsQuerySeparator));
    if keywords != [] then Take(keywords, MaxKeywords)
    else
      var words := Fields(query, IsSpace);
      var firstWord := if words != [] then words[0] else query;
      if firstWord != [] then [firstWord] else ["热门"]
  }

  /** `_fallback_keyword_extraction`. */
  method FallbackKeywordExtraction(originalQuery: string) returns (result: seq<string>)
    ensures result == Fallback(originalQuery)
  {
    var keywords := TokenKeywords(Fields(originalQuery, IsQuerySeparator));
    if keywords == [] {
      var words := Fields(originalQuery, IsSpace);
      var firstWord := if words != [] then words[0] else originalQuery;
      keywords := if firstWord != [] then [firstWord] else ["热门"];
    }
    result := Take(keywords, MaxKeywords);
  }

  /** The token loop of `_fallback_keyword_extraction`. */
  method TokenKeywords(tokens: seq<string>) returns (keywords: seq<string>)
    ensures keywords == KeptTokens(tokens)
  {
    keywords := [];
    for i := 0 to |tokens|
      invariant keywords == KeptTokens(tokens[..i])
    {
      assert tokens[..i + 1][..i] == tokens[..i];
      ghost var step := KeptTokens(tokens[..i + 1]);
      assert step == keywords + (match TokenKeyword(tokens[i]) case Some(y) => [y] case None => []);
      var token := Strip(tokens[i]);
      if token != [] && token !in StopWords && |token| >= 2 {
        assert TokenKeyword(tokens[i]) == Some(token);
        keywords := keywords + [token];
      } else {
        assert TokenKeyword(tokens[i]) == None;
      }
    }
    assert tokens[..|tokens|] == tokens;
  }

  /** The fields of the separator split are already stripped and are never
      the stop word, so the fallback keeps exactly the fields of two or more
      characters. */
  lemma FieldTokenKept(query: string, i: nat)
    requires i < |Fields(query, IsQuerySeparator)|
    ensures var t := Fields(query, IsQuerySeparator)[i];
      Strip(t) == t && (KeepToken(t) <==> |t| >= 2)
  {
    var t := Fields(query, IsQuerySeparator)[i];
    assert NoneIn(t, IsSpace) by {
      forall j | 0 <= j < |t| ensures !IsSpace(t[j]) {
        assert !IsQuerySeparator(t[j]);
      }
    }
    TrimNoop(t, IsSpace);
  }

  /** The fallback always yields between one and twenty non-empty keywords. */
  lemma FallbackBounds(query: string)
    ensures 1 <= |Fallback(query)| <= MaxKeywords
    ensures forall k :: k in Fallback(query) ==> k != []
  {
    var keywords := KeptTokens(Fields(query, IsQuerySeparator));
    if keywords != [] {
      forall k | k in Fallback(query) ensures k != [] {
        assert k in keywords;
        FilterMapMember(Fields(query, IsQuerySeparator), TokenKeyword, k);
      }
    }
  }

  /** When the split yields a token of two or more characters, every keyword
      is such a token: at least two characters, with no separator in it. */
  lemma FallbackFromTokens(query: string)
    requires KeptTokens(Fields(query, IsQuerySeparator)) != []
    ensures forall k :: k in Fallback(query) ==> |k| >= 2 && NoneIn(k, IsQuerySeparator)
  {
    var tokens := Fields(query, IsQuerySeparator);
    forall k | k in Fallback(query) ensures |k| >= 2 && NoneIn(k, IsQuerySeparator) {
      assert k in KeptTokens(tokens);
      FilterMapMember(tokens, TokenKeyword, k);
      var i :| 0 <= i < |tokens| && TokenKeyword(tokens[i]) == Some(k);
      FieldTokenKept(query, i);
    }
  }

  /** A blank query falls back to itself when it is all whitespace and to the
      default keyword when it is empty. */
  lemma FallbackBlank(query: string)
    requires forall i :: 0 <= i < |query| ==> IsSpace(query[i])
    ensures Fallback(query) == if query == [] then ["热门"] else [query]
  {
    var words := Fields(query, IsSpace);
    assert Keep(query, IsSpace) == [] by { KeepAllSep(query, IsSpace); }
    FieldsConcat(query, IsSpace);
    var tokens := Fields(query, IsQuerySeparator);
    assert Keep(query, IsQuerySeparator) == [] by {
      assert forall i :: 0 <= i < |query| ==> IsQuerySeparator(query[i]);
      KeepAllSep(query, IsQuerySeparator);
    }
    FieldsConcat(query, IsQuerySeparator);
  }

  // ---------------------------------------------------------------------
  // _extract_keywords_from_text

  /** Each piece stripped, `[k.strip() for k in pieces]`. */
  function StripEach(pieces: seq<string>): (r: seq<string>)
    ensures |r| == |pieces|
  {
    seq(|pieces|, i requires 0 <= i < |pieces| => Strip(pieces[i]))
  }

  /** The candidates one stripped line yields: after the first colon
      (full-width '：' when the line has one, else ':'), the text up to the
      next colon, split on '、' or else ',' and stripped. */
  function LineCandidates(line: string): seq<string> {
    if '：' in line || ':' in line then
      var parts := if '：' in line then SplitOn(line, '：') else SplitOn(line, ':');
      if |parts| > 1 then
        var potential := Strip(parts[1]);
        if '、' in potential then StripEach(SplitOn(potential, '、'))
        else if ',' in potential then StripEach(SplitOn(potential, ','))
        else [potential]
      else []
    else []
  }

  /** The candidates one raw line yields, after stripping it. */
  function RawLineCandidates(line: string): seq<string> {
    LineCandidates(Strip(line))
  }

  /** The candidates of all lines, in order. */
  function Candidates(lines: seq<string>): seq<string> {
    FlatMap(lines, RawLineCandidates)
  }

  /** Position, within `s`, of the first quote character, or None when a
      newline or the end of `s` comes first: where the lazy `(.*?)` of the
      quote pattern stops, `.` not matching a newline. */
  function CloseQuote(s: string): (r: Option<nat>)
    ensures r.Some? ==> (r.value < |s| && IsQuote(s[r.value])
      && forall j :: 0 <= j < r.value ==> !IsQuote(s[j]) && s[j] != '\n')
    ensures r.None? ==> forall j :: 0 <= j < |s| && IsQuote(s[j]) ==> '\n' in s[..j]
  {
    if s == [] || s[0] == '\n' then None
    else if IsQuote(s[0]) then Some(0)
    else
      match CloseQuote(s[1..])
      case None => None
      case Some(q) => Some(q + 1)
  }

  /** `re.findall(r'["""\'](.*?)["""\']', text)`: the texts between a quote
      and the next quote on the same line, scanning left to right without
      overlap. An opening quote with no closing one on its line is skipped. */
  function FindQuoted(text: string): (r: seq<string>)
    ensures forall k :: 0 <= k < |r| ==> NoneIn(r[k], IsQuote) && '\n' !in r[k]
    decreases |text|
  {
    if text == [] then []
    else if IsQuote(text[0]) then
      match CloseQuote(text[1..])
      case Some(q) =>
        var inner := text[1..q + 1];
        assert forall j :: 0 <= j < |inner| ==> inner[j] == text[1..][j];
        [inner] + FindQuoted(text[q + 2..])
      case None => FindQuoted(text[1..])
    else FindQuoted(text[1..])
  }

  /** A text that opens with a quote closed later on the same line yields
      the text between the two quotes as its first quoted text, and the
      scan goes on after the closing quote. */
  lemma FindQuotedOpening(text: string, j: nat)
    requires 0 < j < |text| && IsQuote(text[0]) && IsQuote(text[j])
    requires forall i :: 0 < i < j ==> !IsQuote(text[i]) && text[i] != '\n'
    ensures FindQuoted(text) == [text[1..j]] + FindQuoted(text[j + 1..])
  {
    var s := text[1..];
    forall i | 0 <= i < j - 1
      ensures !IsQuote(s[i]) && s[i] != '\n'
    {
      assert s[i] == text[i + 1];
    }
    CloseQuoteAt(s, j - 1);
    FindQuotedUnfold(text);
  }

  /** The first quote of `s`, with no newline before it, is where the lazy
      group stops. */
  lemma CloseQuoteAt(s: string, q: nat)
    requires q < |s| && IsQuote(s[q])
    requires forall i :: 0 <= i < q ==> !IsQuote(s[i]) && s[i] != '\n'
    ensures CloseQuote(s) == Some(q)
  {
  }

  /** One unfolding of `FindQuoted` at an opening quote that closes. */
  lemma FindQuotedUnfold(text: string)
    requires text != [] && IsQuote(text[0]) && CloseQuote(text[1..]).Some?
    ensures var q := CloseQuote(text[1..]).value;
      FindQuoted(text) == [text[1..q + 1]] + FindQuoted(text[q + 2..])
  {
  }

  /** The keyword one candidate yields after cleaning, if any. */
  function CleanedCandidate(candidate: string): Option<string> {
    var k := CleanKeyword(candidate);
    if ReasonableLength(k) then Some(k) else None
  }

  /** The cleaning pass: each candidate cleaned, kept when of reasonable length. */
  function CleanAll(candidates: seq<string>): seq<string> {
    FilterMap(candidates, CleanedCandidate)
  }

  /** The candidates the cleaning pass considers: those of the colon rule,
      else the quoted texts, and of either only the first twenty. */
  function Considered(text: string): seq<string> {
    var found := Candidates(SplitOn(text, '\n'));
    Take(if found == [] then FindQuoted(text) else found, MaxKeywords)
  }

  /** `_extract_keywords_from_text(text)`. */
  function ExtractFromText(text: string): seq<string> {
    Take(CleanAll(Considered(text)), MaxKeywords)
  }

  /** `_extract_keywords_from_text`. */
  method ExtractKeywordsFromText(text: string) returns (result: seq<string>)
    ensures result == ExtractFromText(text)
  {
    var keywords := ColonKeywords(SplitOn(text, '\n'));
    if keywords == [] {
      keywords := FindQuoted(text);
    }
    var cleaned := CleanKeywords(Take(keywords, MaxKeywords));
    result := Take(cleaned, MaxKeywords);
  }

  /** The line loop of `_extract_keywords_from_text`: the colon rule applied
      to each line in turn. */
  method ColonKeywords(lines: seq<string>) returns (keywords: seq<string>)
    ensures keywords == Candidates(lines)
  {
    keywords := [];
    for i := 0 to |lines|
      invariant keywords == Candidates(lines[..i])
    {
      assert lines[..i + 1][..i] == lines[..i];
      ghost var step := Candidates(lines[..i + 1]);
      assert step == keywords + RawLineCandidates(lines[i]);
      var line := Strip(lines[i]);
      if '：' in line || ':' in line {
        var parts := if '：' in line then SplitOn(line, '：') else SplitOn(line, ':');
        if |parts| > 1 {
          var potentialKeywords := Strip(parts[1]);
          if '、' in potentialKeywords {
            keywords := keywords + StripEach(SplitOn(potentialKeywords, '、'));
          } else if ',' in potentialKeywords {
            keywords := keywords + StripEach(SplitOn(potentialKeywords, ','));
          } else {
            keywords := keywords + [potentialKeywords];
          }
        }
      }
    }
    assert lines[..|lines|] == lines;
  }

  /** The cleaning loop of `_extract_keywords_from_text`. */
  method CleanKeywords(first: seq<string>) returns (cleaned: seq<string>)
    ensures cleaned == CleanAll(first)
  {
    cleaned := [];
    for i := 0 to |first|
      invariant cleaned == CleanAll(first[..i])
    {
      assert first[..i + 1][..i] == first[..i];
      ghost var step := CleanAll(first[..i + 1]);
      assert step == cleaned + (match CleanedCandidate(first[i]) case Some(y) => [y] case None => []);
      var keyword := Trim(Strip(first[i]), IsQuote);
      if keyword != [] && |keyword| <= MaxKeywordLength {
        assert CleanedCandidate(first[i]) == Some(keyword);
        cleaned := cleaned + [keyword];
      } else {
        assert CleanedCandidate(first[i]) == None;
      }
    }
    assert first[..|first|] == first;
  }

  /** What extraction returns: at most twenty keywords of one to twenty
      characters with no quote at either end, each the cleaned form of one of
      the first twenty candidates. */
  lemma ExtractShape(text: string)
    ensures |ExtractFromText(text)| <= MaxKeywords
    ensures forall k :: k in ExtractFromText(text) ==>
      ReasonableLength(k) && !IsQuote(k[0]) && !IsQuote(k[|k| - 1])
      && exists i :: 0 <= i < |Considered(text)| && CleanKeyword(Considered(text)[i]) == k
  {
    CleanAllShape(Considered(text));
  }

  /** The cleaning pass keeps only cleaned candidates of reasonable length
      without end quotes. */
  lemma CleanAllShape(first: seq<string>)
    ensures forall k :: k in Take(CleanAll(first), MaxKeywords) ==>
      ReasonableLength(k) && !IsQuote(k[0]) && !IsQuote(k[|k| - 1])
      && exists i :: 0 <= i < |first| && CleanKeyword(first[i]) == k
  {
    forall k | k in Take(CleanAll(first), MaxKeywords)
      ensures ReasonableLength(k) && !IsQuote(k[0]) && !IsQuote(k[|k| - 1])
      ensures exists i :: 0 <= i < |first| && CleanKeyword(first[i]) == k
    {
      assert k in CleanAll(first);
      FilterMapMember(first, CleanedCandidate, k);
      var i :| 0 <= i < |first| && CleanedCandidate(first[i]) == Some(k);
      CleanedCandidateShape(first[i]);
    }
  }

  /** A candidate that survives cleaning becomes its cleaned form, which is of
      reasonable length with no quote at either end. */
  lemma CleanedCandidateShape(c: string)
    requires CleanedCandidate(c).Some?
    ensures CleanedCandidate(c).value == CleanKeyword(c)
    ensures ReasonableLength(CleanKeyword(c))
    ensures !IsQuote(CleanKeyword(c)[0]) && !IsQuote(CleanKeyword(c)[|CleanKeyword(c)| - 1])
  {
  }

  /** A line yields candidates exactly when it contains a colon of either
      width. */
  lemma LineCandidatesExist(line: string)
    ensures LineCandidates(Strip(line)) != [] <==> '：' in line || ':' in line
  {
    var t := Strip(line);
    if '：' in line {
      TrimKeeps(line, IsSpace, '：');
    } else if ':' in line {
      TrimKeeps(line, IsSpace, ':');
    }
    if '：' in t {
      TrimFrom(line, IsSpace, '：');
    }
    if ':' in t {
      TrimFrom(line, IsSpace, ':');
    }
  }

  /** The quote fallback runs exactly when the text contains no colon of
      either width: any colon anywhere yields at least one candidate, even an
      empty one. */
  lemma QuoteFallbackExactly(text: string)
    ensures Candidates(SplitOn(text, '\n')) == [] <==> '：' !in text && ':' !in text
  {
    var lines := SplitOn(text, '\n');
    FlatMapEmpty(lines, RawLineCandidates);
    if '：' in text || ':' in text {
      var c := if '：' in text then '：' else ':';
      SplitOnCovers(text, '\n', c);
      var k :| 0 <= k < |lines| && c in lines[k];
      LineCandidatesExist(lines[k]);
    } else {
      forall i | 0 <= i < |lines| ensures RawLineCandidates(lines[i]) == [] {
        LineCandidatesExist(lines[i]);
        if '：' in lines[i] {
          SplitOnFrom(text, '\n', i, '：');
        }
        if ':' in lines[i] {
          SplitOnFrom(text, '\n', i, ':');
        }
      }
    }
  }
}

module KeywordsExamples {
  import opened Wrappers
  import opened PyText
  import opened Keywords

  lemma CleanPadded()
    ensures CleanKeyword(" \"美妆\" ") == "美妆"
  {
    assert Strip(" \"美妆\" ") == "\"美妆\"" by {
      assert LeadCount(" \"美妆\" ", IsSpace) == 1 by {
        assert LeadCount(" \"美妆\" "[1..], IsSpace) == 0;
      }
      assert EndIndex(" \"美妆\" ", IsSpace) == 5 by {
        assert " \"美妆\" "[..5] == " \"美妆\"";
        assert EndIndex(" \"美妆\"", IsSpace) == 5;
      }
      assert " \"美妆\" "[1..5] == "\"美妆\"";
    }
    assert LeadCount("\"美妆\"", IsQuote) == 1 by {
      assert LeadCount("\"美妆\""[1..], IsQuote) == 0;
    }
    assert EndIndex("\"美妆\"", IsQuote) == 3;
    assert "\"美妆\""[1..3] == "美妆";
  }

  lemma ShortTextIsClean()
    ensures !HasBannedWord("美妆")
  {
    forall b | b in BannedWords ensures !ContainsSub("美妆", b) {
      assert |b| == 4;
    }
  }

  lemma BannedPhraseFound()
    ensures CleanKeyword("态度分析报告") == "态度分析报告" && HasBannedWord("态度分析报告")
  {
    TrimNoop("态度分析报告", IsSpace);
    TrimNoop("态度分析报告", IsQuote);
    assert "态度分析" <= "态度分析报告"[0..];
    assert "态度分析" in BannedWords;
  }

  lemma ItemVerdicts()
    ensures ValidKeyword(Text(" \"美妆\" ")) == Some("美妆")
    ensures ValidKeyword(Text("态度分析报告")) == None
    ensures ValidKeyword(NonText) == None
    ensures ValidKeyword(Text("")) == None
  {
    CleanPadded();
    ShortTextIsClean();
    BannedPhraseFound();
    assert CleanKeyword("") == "";
  }

  /** Surrounding whitespace and quotes go; a keyword holding a banned phrase,
      a non-text item and an empty text are dropped. */
  lemma ValidateExample()
    ensures Validated([Text(" \"美妆\" "), Text("态度分析报告"), NonText, Text("")]) == ["美妆"]
  {
    ItemVerdicts();
    FilterMapFirstOfFour(Text(" \"美妆\" "), Text("态度分析报告"), NonText, Text(""), ValidKeyword, "美妆");
  }





  /** The full-width colon takes precedence: a half-width colon after it stays
      inside the candidate. */
  lemma FullWidthColonFirst()
    ensures LineCandidates("a：b:c") == ["b:c"]
  {
    var line := "a：b:c";
    assert IndexOf(line, '：') == 1;
    assert line[2..] == "b:c";
    assert IndexOf("b:c", '：') == 3;
    assert SplitOn("b:c", '：') == ["b:c"];
    assert line[..1] == "a";
    assert SplitOn(line, '：') == ["a", "b:c"];
    TrimNoop("b:c", IsSpace);
    assert '、' !in "b:c" && ',' !in "b:c";
  }

  /** Quoted texts are found left to right, whichever quote closes them. */
  lemma QuotedTexts()
    ensures FindQuoted("'美妆\"和") == ["美妆"]
  {
    var t := "'美妆\"和";
    assert CloseQuote(t[1..]) == Some(2) by {
      var a := t[1..];
      var b := a[1..];
      var c := b[1..];
      assert b == "妆\"和" && c == "\"和";
      assert CloseQuote(c) == Some(0);
      assert !IsQuote(b[0]) && b[0] != '\n';
      assert CloseQuote(b) == Some(1);
      assert !IsQuote(a[0]) && a[0] != '\n';
    }
    assert t[1..3] == "美妆";
    assert t[4..] == "和";
    assert FindQuoted("和") == [] by {
      assert "和"[1..] == [];
    }
  }

  /** A one-character query has no token of two characters, so the fallback
      returns its first word. */
  lemma ShortQueryFallsBack()
    ensures Fallback("美") == ["美"]
  {
    var q := "美";
    assert DropLeading(q, IsQuerySeparator) == q;
    assert SepFreePrefix(q, IsQuerySeparator) == 1 by {
      assert SepFreePrefix(q[1..], IsQuerySeparator) == 0;
    }
    assert q[..1] == q && q[1..] == [];
    assert Fields(q, IsQuerySeparator) == [q];
    assert Strip(q) == q by { TrimNoop(q, IsSpace); }
    assert !KeepToken(q);
    assert TokenKeyword([q][0]) == None;
    assert [q][..0] == [];
    assert FilterMap([q][..0], TokenKeyword) == [];
    assert KeptTokens([q]) == [];
    assert DropLeading(q, IsSpace) == q;
    assert SepFreePrefix(q, IsSpace) == 1 by {
      assert SepFreePrefix(q[1..], IsSpace) == 0;
    }
    assert Fields(q, IsSpace) == [q];
  }
}
