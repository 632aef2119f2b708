/** The rule-based SEO suggestion generator: from a blog topic, a language
    code and a search platform it builds keywords, a title, a meta
    description, tags and a content outline out of fixed templates.
    Nothing is kept between calls; the one random choice of the generator
    (a feature name for each of the two H3 lines of the outline) is passed
    in as a draw index below ten. */
module SeoAnalyzer {
  import opened JsStrings

  datatype Option<T> = None | Some(value: T)

  /** The record returned for one topic. */
  datatype SeoSuggestions = SeoSuggestions(
    keywords: seq<string>,
    titleSuggestion: string,
    metaDescription: string,
    tags: seq<string>,
    contentStructure: seq<string>)

  /** The text templates come in three languages. Every branch that writes
      text tests for "ko", then "ja", and gives everything else English. */
  datatype Lang = Ko | Ja | En

  /** Template text placed before and after the topic. */
  datatype Around = Around(before: string, after: string)

  function TextLanguage(language: string): (lang: Lang)
    ensures lang == Ko <==> language == "ko"
    ensures lang == Ja <==> language == "ja"
  {
    if language == "ko" then Ko else if language == "ja" then Ja else En
  }

  // =====================================================================
  // Technical-topic classification
  // =====================================================================

  const TechKeywords: seq<string> := [
    "javascript", "자바스크립트", "ジャバスクリプト", "java", "자바", "ジャバ",
    "python", "파이썬", "パイソン", "프로그래밍", "プログラミング", "코드", "コード",
    "api", "framework", "프레임워크", "フレームワーク", "react", "리액트", "リアクト",
    "リアクティブ", "リアクションス", "vue", "angular", "앵귤러", "node", "노드",
    "express", "database", "데이터베이스", "データベース", "sql", "nosql", "aws",
    "cloud", "클라우드", "クラウド", "web", "웹", "ウェブ", "app", "앱", "アプリ",
    "mobile", "모바일", "モバイル", "algorithm", "알고리즘", "アルゴリズム",
    "data structure", "자료구조", "データ構造", "git", "깃", "docker", "도커",
    "kubernetes", "쿠버네티스"
  ]

  /** `keywords.some((k) => lowered.includes(k.toLowerCase()))`: true
      exactly when one of the keywords is found. */
  function SomeKeywordIn(lowered: string, keywords: seq<string>): (found: bool)
    ensures found <==> exists i :: 0 <= i < |keywords| && Contains(lowered, Lower(keywords[i]))
  {
    if |keywords| == 0 then false
    else
      var rest := SomeKeywordIn(lowered, keywords[1..]);
      assert forall i :: 1 <= i < |keywords| ==> keywords[i] == keywords[1..][i - 1];
      Contains(lowered, Lower(keywords[0])) || rest
  }

  /** A match at any position of the keyword list makes `some` succeed. */
  lemma {:induction false} SomeKeywordInAt(lowered: string, keywords: seq<string>, i: nat)
    requires i < |keywords| && Contains(lowered, Lower(keywords[i]))
    ensures SomeKeywordIn(lowered, keywords)
  {
    if i > 0 {
      SomeKeywordInAt(lowered, keywords[1..], i - 1);
    }
  }

  /** `isTechTopic`: a technical topic contains, ignoring case, one of the
      technical keywords. */
  function IsTechTopic(topic: string): (technical: bool)
    ensures technical ==>
      exists i :: 0 <= i < |TechKeywords| && Contains(Lower(topic), Lower(TechKeywords[i]))
  {
    SomeKeywordIn(Lower(topic), TechKeywords)
  }

  /** A topic is technical exactly when, ignoring case, it contains one of
      the technical keywords anywhere, even inside a longer word. */
  lemma IsTechTopicMeans(topic: string)
    ensures IsTechTopic(topic) <==>
      exists i :: 0 <= i < |TechKeywords| && Contains(Lower(topic), Lower(TechKeywords[i]))
  {
    assert SomeKeywordIn(Lower(topic), TechKeywords) == IsTechTopic(topic);
  }

  /** Adding text before or after a technical topic keeps it technical. */
  lemma TechTopicWrapped(before: string, topic: string, after: string)
    requires IsTechTopic(topic)
    ensures IsTechTopic(before + topic + after)
  {
    IsTechTopicMeans(before + topic + after);
    var i :| 0 <= i < |TechKeywords| && Contains(Lower(topic), Lower(TechKeywords[i]));
    LowerConcat(before, topic);
    LowerConcat(before + topic, after);
    ContainsWrapped(Lower(before), Lower(topic), Lower(after), Lower(TechKeywords[i]));
  }

  /** Upper case does not hide a keyword: "React" is technical. */
  lemma ReactIsTechnical()
    ensures IsTechTopic("React")
  {
    assert TechKeywords[17] == "react";
    assert Lower("React") == "react";
    LowerOfLower("react");
    ContainsSelf("react");
    SomeKeywordInAt(Lower("React"), TechKeywords, 17);
  }

  /** Keywords in Hangul are matched as they are: "리액트 공부" is technical. */
  lemma KoreanReactIsTechnical()
    ensures IsTechTopic("리액트 공부")
  {
    assert TechKeywords[18] == "리액트";
    LowerOfLower("리액트 공부");
    LowerOfLower("리액트");
    ContainsAtStart("리액트", " 공부");
    assert "리액트" + " 공부" == "리액트 공부";
    SomeKeywordInAt(Lower("리액트 공부"), TechKeywords, 18);
  }

  /** Plain substring matching: "happy" counts as technical because it
      contains "app". */
  lemma HappyIsTechnical()
    ensures IsTechTopic("happy")
  {
    assert TechKeywords[40] == "app";
    LowerOfLower("happy");
    LowerOfLower("app");
    assert OccursAt("happy", "app", 1);
    ContainsMeansOccurs("happy", "app");
    SomeKeywordInAt(Lower("happy"), TechKeywords, 40);
  }

  // =====================================================================
  // Keywords
  // =====================================================================

  /** `topic.split(" ").filter((term) => term.length >= min)`. */
  function MainTerms(topic: string, min: nat): (terms: seq<string>)
    ensures |terms| <= |SplitOnSpace(topic)|
  {
    FilterMinLength(SplitOnSpace(topic), min)
  }

  /** The main terms are exactly the space-separated pieces of the topic
      that reach the minimum length, none containing a space; the first
      main term, on which every keyword variation is built, is the first
      piece that is long enough. */
  lemma MainTermsAreLongPieces(topic: string, min: nat)
    ensures var terms := MainTerms(topic, min);
      (forall i :: 0 <= i < |terms| ==> |terms[i]| >= min && ' ' !in terms[i])
      && (forall i :: 0 <= i < |SplitOnSpace(topic)| && |SplitOnSpace(topic)[i]| >= min ==> SplitOnSpace(topic)[i] in terms)
    ensures var pieces := SplitOnSpace(topic);
      MainTerms(topic, min) != [] ==>
        exists k :: 0 <= k < |pieces| && MainTerms(topic, min)[0] == pieces[k]
          && |pieces[k]| >= min && forall j :: 0 <= j < k ==> |pieces[j]| < min
  {
    var pieces := SplitOnSpace(topic);
    FilterMinLengthFirst(pieces, min);
    FilterMinLengthKeeps(pieces, min);
    var terms := MainTerms(topic, min);
    forall i | 0 <= i < |terms|
      ensures |terms[i]| >= min && ' ' !in terms[i]
    {
      var term := FilterMinLength(pieces, min)[i];
      assert |term| >= min;
      assert term in pieces;
      var j :| 0 <= j < |pieces| && pieces[j] == term;
    }
  }

  /** A topic with no term of two characters has none of three either. */
  lemma NoShortTermsNoLongTerms(topic: string)
    ensures MainTerms(topic, 2) == [] ==> MainTerms(topic, 3) == []
  {
    FilterMonotone(SplitOnSpace(topic), 2, 3);
  }

  /** Korean keywords for Google: the topic, three variations on its first
      main term, and three more for a technical topic, cut to five. */
  function KoreanGoogleKeywords(topic: string): (r: seq<string>)
    ensures 1 <= |r| <= 5 && r[0] == topic
    ensures |r| == 1 <==> MainTerms(topic, 2) == []
    ensures |r| > 1 ==> (|r| == 5 <==> IsTechTopic(topic)) && (|r| == 4 <==> !IsTechTopic(topic))
    ensures forall i :: 1 <= i < |r| ==> MainTerms(topic, 2)[0] <= r[i]
  {
    var terms := MainTerms(topic, 2);
    if |terms| == 0 then [topic]
    else
      var m := terms[0];
      var keywords := [topic, m + " 방법", m + " 예제", m + " 쉽게 이해하기"]
        + (if IsTechTopic(topic) then [m + " 튜토리얼", m + " 초보자", m + " 활용"] else []);
      Take(keywords, 5)
  }

  /** Korean keywords for Naver: the Google list, plus two question-style
      variations, cut to five. */
  function KoreanNaverKeywords(topic: string): (r: seq<string>)
    ensures 1 <= |r| <= 5 && r[0] == topic
    ensures |r| == 1 <==> MainTerms(topic, 2) == []
    ensures |r| > 1 ==> |r| == 5
    ensures forall i :: 1 <= i < |r| ==> MainTerms(topic, 2)[0] <= r[i]
  {
    var keywords := KoreanGoogleKeywords(topic);
    var terms := MainTerms(topic, 2);
    if |terms| == 0 then Take(keywords, 5)
    else
      var m := terms[0];
      var extended := keywords + [m + " 알려주세요", m + " 질문"];
      Take(extended, 5)
  }

  /** Japanese keywords for Google, shaped like the Korean ones. */
  function JapaneseGoogleKeywords(topic: string): (r: seq<string>)
    ensures 1 <= |r| <= 5 && r[0] == topic
    ensures |r| == 1 <==> MainTerms(topic, 2) == []
    ensures |r| > 1 ==> (|r| == 5 <==> IsTechTopic(topic)) && (|r| == 4 <==> !IsTechTopic(topic))
    ensures forall i :: 1 <= i < |r| ==> MainTerms(topic, 2)[0] <= r[i]
  {
    var terms := MainTerms(topic, 2);
    if |terms| == 0 then [topic]
    else
      var m := terms[0];
      var keywords := [topic, m + " 方法", m + " 例", m + " わかりやすく"]
        + (if IsTechTopic(topic) then [m + " チュートリアル", m + " 初心者", m + " 活用"] else []);
      Take(keywords, 5)
  }

  /** Japanese keywords for Yahoo: the Google list plus two question-style
      variations, cut to five. */
  function JapaneseYahooKeywords(topic: string): (r: seq<string>)
    ensures 1 <= |r| <= 5 && r[0] == topic
    ensures |r| == 1 <==> MainTerms(topic, 2) == []
    ensures |r| > 1 ==> |r| == 5
    ensures forall i :: 1 <= i < |r| ==> MainTerms(topic, 2)[0] <= r[i]
  {
    var keywords := JapaneseGoogleKeywords(topic);
    var terms := MainTerms(topic, 2);
    if |terms| == 0 then Take(keywords, 5)
    else
      var m := terms[0];
      var extended := keywords + [m + " 教えて", m + " 質問"];
      Take(extended, 5)
  }

  /** English keywords: main terms need three characters; four variations
      of the first one, whatever the topic. */
  function EnglishGoogleKeywords(topic: string): (r: seq<string>)
    ensures 1 <= |r| <= 5 && r[0] == topic
    ensures |r| == 1 <==> MainTerms(topic, 3) == []
    ensures |r| > 1 ==> |r| == 5
    ensures forall i :: 1 <= i < |r| ==> Contains(r[i], MainTerms(topic, 3)[0])
  {
    var terms := MainTerms(topic, 3);
    if |terms| == 0 then [topic]
    else
      var m := terms[0];
      ContainsAtStart(m, " tutorial");
      ContainsAtStart(m, " guide");
      ContainsAtEnd("how to ", m);
      ContainsAtStart(m, " examples");
      var keywords := [topic, m + " tutorial", m + " guide", "how to " + m, m + " examples"];
      Take(keywords, 5)
  }

  /** The Naver list never drops or reorders a Google keyword: it only adds
      at the end. A technical topic with a main term already fills the
      Google list, so the two lists are then the same, and so they are for
      a topic without main terms. */
  lemma {:induction false} NaverExtendsGoogle(topic: string)
    ensures KoreanGoogleKeywords(topic) <= KoreanNaverKeywords(topic)
    ensures MainTerms(topic, 2) == [] ==> KoreanNaverKeywords(topic) == KoreanGoogleKeywords(topic)
    ensures IsTechTopic(topic) ==> KoreanNaverKeywords(topic) == KoreanGoogleKeywords(topic)
  {
    var g := KoreanGoogleKeywords(topic);
    var terms := MainTerms(topic, 2);
    if |terms| > 0 {
      var m := terms[0];
      TakeAppend(g, [m + " 알려주세요", m + " 질문"], 5);
    }
  }

  /** The same for the Japanese Yahoo list and the Japanese Google list. */
  lemma {:induction false} YahooExtendsGoogle(topic: string)
    ensures JapaneseGoogleKeywords(topic) <= JapaneseYahooKeywords(topic)
    ensures MainTerms(topic, 2) == [] ==> JapaneseYahooKeywords(topic) == JapaneseGoogleKeywords(topic)
    ensures IsTechTopic(topic) ==> JapaneseYahooKeywords(topic) == JapaneseGoogleKeywords(topic)
  {
    var g := JapaneseGoogleKeywords(topic);
    var terms := MainTerms(topic, 2);
    if |terms| > 0 {
      var m := terms[0];
      TakeAppend(g, [m + " 教えて", m + " 質問"], 5);
    }
  }

  /** For a technical topic the cut to five keeps only the first technical
      variation: the "beginner" and "usage" keywords never appear. */
  lemma TechKeywordsCutAtTutorial(topic: string)
    requires IsTechTopic(topic) && MainTerms(topic, 2) != []
    ensures var m := MainTerms(topic, 2)[0];
      KoreanGoogleKeywords(topic) == [topic, m + " 방법", m + " 예제", m + " 쉽게 이해하기", m + " 튜토리얼"]
  {
    var m := MainTerms(topic, 2)[0];
    var all := [topic, m + " 방법", m + " 예제", m + " 쉽게 이해하기"] + [m + " 튜토리얼", m + " 초보자", m + " 활용"];
    assert KoreanGoogleKeywords(topic) == all[..5];
  }

  /** The same cut in Japanese. */
  lemma TechKeywordsCutAtTutorialJapanese(topic: string)
    requires IsTechTopic(topic) && MainTerms(topic, 2) != []
    ensures var m := MainTerms(topic, 2)[0];
      JapaneseGoogleKeywords(topic) == [topic, m + " 方法", m + " 例", m + " わかりやすく", m + " チュートリアル"]
  {
    var m := MainTerms(topic, 2)[0];
    var all := [topic, m + " 方法", m + " 例", m + " わかりやすく"] + [m + " チュートリアル", m + " 初心者", m + " 活用"];
    assert JapaneseGoogleKeywords(topic) == all[..5];
  }

  /** The keyword generators that have an entry in the dispatch table. */
  datatype KeywordGenerator = KoreanGoogle | KoreanNaver | JapaneseGoogle | JapaneseYahoo | EnglishGoogle

  /** The (language, platform) pairs of the keyword table. */
  const TablePairs: set<(string, string)> :=
    {("ko", "google"), ("ko", "naver"), ("ja", "google"), ("ja", "yahoo"), ("en", "google"), ("en", "naver")}

  /** `keywordsByLanguage[language]?.[platform]`: six (language, platform)
      pairs have an entry; English on Naver reuses the English Google
      generator. */
  function KeywordTable(language: string, platform: string): (g: Option<KeywordGenerator>)
    ensures g.Some? <==> (language, platform) in TablePairs
  {
    if language == "ko" then
      if platform == "google" then Some(KoreanGoogle)
      else if platform == "naver" then Some(KoreanNaver)
      else None
    else if language == "ja" then
      if platform == "google" then Some(JapaneseGoogle)
      else if platform == "yahoo" then Some(JapaneseYahoo)
      else None
    else if language == "en" then
      if platform == "google" || platform == "naver" then Some(EnglishGoogle)
      else None
    else None
  }

  function RunKeywordGenerator(g: KeywordGenerator, topic: string): (r: seq<string>)
    ensures 1 <= |r| <= 5 && r[0] == topic
  {
    match g
    case KoreanGoogle => KoreanGoogleKeywords(topic)
    case KoreanNaver => KoreanNaverKeywords(topic)
    case JapaneseGoogle => JapaneseGoogleKeywords(topic)
    case JapaneseYahoo => JapaneseYahooKeywords(topic)
    case EnglishGoogle => EnglishGoogleKeywords(topic)
  }

  /** The keyword list: the table's generator, or the Korean Google one when
      the pair has no entry. Whatever the pair, the list holds one to five
      keywords and starts with the topic itself. */
  function GenerateKeywords(topic: string, language: string, platform: string): (r: seq<string>)
    ensures 1 <= |r| <= 5 && r[0] == topic
  {
    var g := match KeywordTable(language, platform)
      case Some(g) => g
      case None => KoreanGoogle;
    RunKeywordGenerator(g, topic)
  }

  /** A pair without a table entry gets exactly the Korean Google list. */
  lemma DispatchFallback(topic: string, language: string, platform: string)
    requires KeywordTable(language, platform) == None
    ensures GenerateKeywords(topic, language, platform) == GenerateKeywords(topic, "ko", "google")
    ensures GenerateKeywords(topic, language, platform) == KoreanGoogleKeywords(topic)
  {
  }

  /** English has no Naver variant of its own. */
  lemma EnglishNaverIsEnglishGoogle(topic: string)
    ensures GenerateKeywords(topic, "en", "naver") == GenerateKeywords(topic, "en", "google")
  {
    assert KeywordTable("en", "naver") == Some(EnglishGoogle);
    assert KeywordTable("en", "google") == Some(EnglishGoogle);
  }

  /** Two pairs outside the table: Japanese on Naver, French on Bing. */
  lemma UnlistedPairsFallBack(topic: string)
    ensures GenerateKeywords(topic, "ja", "naver") == GenerateKeywords(topic, "ko", "google")
    ensures GenerateKeywords(topic, "fr", "bing") == GenerateKeywords(topic, "ko", "google")
  {
    assert KeywordTable("ja", "naver") == None;
    assert KeywordTable("fr", "bing") == None;
    assert KeywordTable("ko", "google") == Some(KoreanGoogle);
  }

  /** A topic with no space-separated term of two characters or more yields
      the topic alone, for every language and platform. */
  lemma {:induction false} NoMainTermsTopicOnly(topic: string, language: string, platform: string)
    requires MainTerms(topic, 2) == []
    ensures GenerateKeywords(topic, language, platform) == [topic]
  {
    NoShortTermsNoLongTerms(topic);
  }

  // =====================================================================
  // Title
  // =====================================================================

  /** The three title templates. English has no complete-guide template:
      its non-technical template is its key-points one. */
  datatype TitleStyle = BeginnerGuide | CompleteGuide | KeyPoints

  /** The title decision: a technical topic gets the beginner's guide; in
      Korean and Japanese a topic shorter than 15 characters gets the
      complete guide; every other topic gets the key points. */
  function TitleStyleFor(topic: string, language: string): (style: TitleStyle)
    ensures TextLanguage(language) == En ==> style != CompleteGuide
  {
    match TextLanguage(language)
    case Ko | Ja =>
      if IsTechTopic(topic) then BeginnerGuide
      else if |topic| < 15 then CompleteGuide
      else KeyPoints
    case En =>
      if IsTechTopic(topic) then BeginnerGuide else KeyPoints
  }

  /** The text before and after the topic in each title template. */
  function TitleTemplate(lang: Lang, style: TitleStyle): (t: Around)
    requires lang == En ==> style != CompleteGuide
    ensures |t.after| > 0
  {
    match (lang, style)
    case (Ko, BeginnerGuide) => Around("[초보자 필독] ", "를 이해하는 가장 쉬운 방법 (예제 포함)")
    case (Ko, CompleteGuide) => Around("알아두면 유용한 ", " 완벽 가이드 - 전문가의 팁 10가지")
    case (Ko, KeyPoints) => Around("", " - 당신이 몰랐던 5가지 핵심 포인트")
    case (Ja, BeginnerGuide) => Around("【初心者必読】", "を理解する最も簡単な方法（例付き）")
    case (Ja, CompleteGuide) => Around("知っておくと便利な", "完全ガイド - 専門家のヒント10選")
    case (Ja, KeyPoints) => Around("", " - あなたが知らなかった5つの重要ポイント")
    case (En, BeginnerGuide) => Around("The Ultimate Guide to ", ": What Every Beginner Should Know")
    case (En, KeyPoints) => Around("", ": 5 Essential Tips You Need to Know Today")
  }

  /** The suggested title: the chosen template wrapped around the topic.
      The platform is accepted and ignored. */
  function GenerateTitleSuggestion(topic: string, language: string, platform: string): (r: string)
    ensures Contains(r, topic)
    ensures |r| > |topic|
  {
    var t := TitleTemplate(TextLanguage(language), TitleStyleFor(topic, language));
    ContainsAround(t.before, topic, t.after);
    t.before + topic + t.after
  }

  /** Which template a topic gets, in both directions. */
  lemma TitleStyleChoice(topic: string, language: string)
    ensures TitleStyleFor(topic, language) == BeginnerGuide <==> IsTechTopic(topic)
    ensures TextLanguage(language) != En ==>
      (TitleStyleFor(topic, language) == CompleteGuide <==> !IsTechTopic(topic) && |topic| < 15)
    ensures TextLanguage(language) != En ==>
      (TitleStyleFor(topic, language) == KeyPoints <==> !IsTechTopic(topic) && |topic| >= 15)
    ensures TextLanguage(language) == En ==>
      (TitleStyleFor(topic, language) == KeyPoints <==> !IsTechTopic(topic))
  {
  }

  predicate EndsWith(s: string, suffix: string)
  {
    |suffix| <= |s| && s[|s| - |suffix|..] == suffix
  }

  lemma LastOfWrapped(prefix: string, topic: string, suffix: string)
    requires |suffix| > 0
    ensures (prefix + topic + suffix)[|prefix + topic + suffix| - 1] == suffix[|suffix| - 1]
  {
  }

  /** The style's templates in one language end in different characters. */
  lemma SuffixesEndApart(lang: Lang, s1: TitleStyle, s2: TitleStyle)
    requires lang == En ==> s1 != CompleteGuide && s2 != CompleteGuide
    requires s1 != s2
    ensures var a := TitleTemplate(lang, s1).after; var b := TitleTemplate(lang, s2).after;
      a[|a| - 1] != b[|b| - 1]
  {
  }

  /** A text wrapped in one template ends with another template's closing
      text exactly when the two templates are the same. */
  lemma {:induction false} TemplateEndingReveals(lang: Lang, actual: TitleStyle, style: TitleStyle, topic: string)
    requires lang == En ==> actual != CompleteGuide && style != CompleteGuide
    ensures var t := TitleTemplate(lang, actual);
      EndsWith(t.before + topic + t.after, TitleTemplate(lang, style).after) <==> actual == style
  {
    var t := TitleTemplate(lang, actual);
    var title := t.before + topic + t.after;
    var other := TitleTemplate(lang, style).after;
    if actual == style {
      assert title[|title| - |t.after|..] == t.after;
    } else if EndsWith(title, other) {
      LastOfWrapped(t.before, topic, t.after);
      assert title[|title| - 1] == other[|other| - 1];
      SuffixesEndApart(lang, actual, style);
      assert false;
    }
  }

  /** The ending of a title tells which template produced it. */
  lemma TitleRevealsStyle(topic: string, language: string, platform: string, style: TitleStyle)
    requires TextLanguage(language) == En ==> style != CompleteGuide
    ensures EndsWith(GenerateTitleSuggestion(topic, language, platform), TitleTemplate(TextLanguage(language), style).after)
      <==> TitleStyleFor(topic, language) == style
  {
    TemplateEndingReveals(TextLanguage(language), TitleStyleFor(topic, language), style, topic);
  }

  lemma AffixCancel(prefix: string, a: string, b: string, suffix: string)
    requires prefix + a + suffix == prefix + b + suffix
    ensures a == b
  {
    assert |a| == |b|;
    assert a == (prefix + a + suffix)[|prefix|..|prefix| + |a|];
    assert b == (prefix + b + suffix)[|prefix|..|prefix| + |b|];
  }

  /** Different topics never get the same title in one language, whatever
      the platforms: the title determines its topic. */
  lemma {:induction false} TitleDeterminesTopic(t1: string, t2: string, language: string, p1: string, p2: string)
    requires GenerateTitleSuggestion(t1, language, p1) == GenerateTitleSuggestion(t2, language, p2)
    ensures t1 == t2
  {
    var lang := TextLanguage(language);
    var s1, s2 := TitleStyleFor(t1, language), TitleStyleFor(t2, language);
    var title := GenerateTitleSuggestion(t1, language, p1);
    if s1 != s2 {
      TitleRevealsStyle(t1, language, p1, s1);
      TitleRevealsStyle(t2, language, p2, s1);
      assert false;
    }
    var t := TitleTemplate(lang, s1);
    AffixCancel(t.before, t1, t2, t.after);
  }

  /** The title does not depend on the platform. */
  lemma TitleIgnoresPlatform(topic: string, language: string, p1: string, p2: string)
    ensures GenerateTitleSuggestion(topic, language, p1) == GenerateTitleSuggestion(topic, language, p2)
  {
  }

  // =====================================================================
  // Meta description
  // =====================================================================

  const MetaKoreanSuffix := "에 대한 모든 것을 알려드립니다. 이 글에서는 초보자도 쉽게 이해할 수 있는 설명과 실제 활용 방법, 그리고 전문가들의 팁을 함께 제공합니다."
  const MetaJapaneseSuffix := "についてのすべてをご紹介します。この記事では、初心者でも簡単に理解できる説明と実際の活用方法、そして専門家のヒントを一緒に提供します。"
  const MetaEnglishPrefix := "Everything you need to know about "
  const MetaEnglishSuffix := ". This comprehensive guide provides easy-to-understand explanations, practical applications, and expert tips for both beginners and advanced users."

  /** The meta description: one fixed two-sentence text per language, with
      the topic at its very start in Korean and Japanese and after a lead-in
      in English. */
  function GenerateMetaDescription(topic: string, language: string): (r: string)
    ensures Contains(r, topic)
    ensures |r| > |topic|
    ensures TextLanguage(language) != En ==> topic <= r
  {
    match TextLanguage(language)
    case Ko =>
      ContainsAtStart(topic, MetaKoreanSuffix);
      topic + MetaKoreanSuffix
    case Ja =>
      ContainsAtStart(topic, MetaJapaneseSuffix);
      topic + MetaJapaneseSuffix
    case En =>
      ContainsAround(MetaEnglishPrefix, topic, MetaEnglishSuffix);
      MetaEnglishPrefix + topic + MetaEnglishSuffix
  }

  /** Different topics never share a meta description in one language. */
  lemma {:induction false} MetaDescriptionDeterminesTopic(t1: string, t2: string, language: string)
    requires GenerateMetaDescription(t1, language) == GenerateMetaDescription(t2, language)
    ensures t1 == t2
  {
    match TextLanguage(language)
    case Ko =>
      assert "" + t1 + MetaKoreanSuffix == "" + t2 + MetaKoreanSuffix;
      AffixCancel("", t1, t2, MetaKoreanSuffix);
    case Ja =>
      assert "" + t1 + MetaJapaneseSuffix == "" + t2 + MetaJapaneseSuffix;
      AffixCancel("", t1, t2, MetaJapaneseSuffix);
    case En =>
      AffixCancel(MetaEnglishPrefix, t1, t2, MetaEnglishSuffix);
  }

  // =====================================================================
  // Tags
  // =====================================================================

  predicate IsTag(t: string)
  {
    |t| > 0 && t[0] == '#'
  }

  /** The two closing tags: development tags for a technical topic,
      general tips tags otherwise, in the topic's language. */
  function CategoryPair(technical: bool, lang: Lang): (tags: seq<string>)
    ensures |tags| == 2 && IsTag(tags[0]) && IsTag(tags[1]) && tags[0] != tags[1]
  {
    match (technical, lang)
    case (true, Ko) => ["#개발팁", "#프로그래밍"]
    case (true, Ja) => ["#開発ヒント", "#プログラミング"]
    case (true, En) => ["#DevTips", "#Programming"]
    case (false, Ko) => ["#꿀팁", "#정보"]
    case (false, Ja) => ["#ヒント", "#情報"]
    case (false, En) => ["#Tips", "#Info"]
  }

  /** The pair tells the two kinds of topic apart. */
  lemma CategoryPairTellsTech(b1: bool, b2: bool, lang: Lang)
    ensures CategoryPair(b1, lang) == CategoryPair(b2, lang) <==> b1 == b2
  {
    if b1 != b2 {
      assert CategoryPair(b1, lang)[0] != CategoryPair(b2, lang)[0];
    }
  }

  /** The pair pushed after the word tags of `topic`. */
  function CategoryTags(topic: string, language: string): (tags: seq<string>)
    ensures |tags| == 2 && IsTag(tags[0]) && IsTag(tags[1]) && tags[0] != tags[1]
  {
    CategoryPair(IsTechTopic(topic), TextLanguage(language))
  }

  /** Two topics get the same pair in one language exactly when both or
      neither are technical. */
  lemma CategoryTagsTellTech(t1: string, t2: string, language: string)
    ensures CategoryTags(t1, language) == CategoryTags(t2, language) <==> IsTechTopic(t1) == IsTechTopic(t2)
  {
    CategoryPairTellsTech(IsTechTopic(t1), IsTechTopic(t2), TextLanguage(language));
  }

  /** One `#word` tag per word, in order. */
  function HashEach(words: seq<string>): (tags: seq<string>)
    ensures |tags| == |words|
    ensures forall i :: 0 <= i < |words| ==> IsTag(tags[i]) && tags[i][1..] == words[i]
  {
    seq(|words|, i requires 0 <= i < |words| => "#" + words[i])
  }

  /** The tags in push order: the topic tag, one `#word` tag per word, then
      the category pair. */
  function TagSequence(topicTag: string, words: seq<string>, pair: seq<string>): (raw: seq<string>)
    ensures |raw| == 1 + |words| + |pair|
    ensures raw[0] == topicTag
    ensures forall i :: 1 <= i <= |words| ==> IsTag(raw[i]) && raw[i][1..] == words[i - 1]
    ensures raw[1 + |words|..] == pair
  {
    var raw := [topicTag] + HashEach(words) + pair;
    assert raw[1 + |words|..] == pair;
    raw
  }

  /** With a tag first and a pair of tags last, every element is a tag. */
  lemma TagSequenceAllTags(topicTag: string, words: seq<string>, pair: seq<string>)
    requires IsTag(topicTag) && |pair| == 2 && IsTag(pair[0]) && IsTag(pair[1])
    ensures forall i :: 0 <= i < |TagSequence(topicTag, words, pair)| ==> IsTag(TagSequence(topicTag, words, pair)[i])
  {
    var raw := TagSequence(topicTag, words, pair);
    assert raw[|raw| - 2] == pair[0] && raw[|raw| - 1] == pair[1];
  }

  /** The tags before duplicates are removed: the whitespace-free topic,
      each word of two characters or more, then the category pair. */
  function RawTags(topic: string, language: string): (raw: seq<string>)
    ensures |raw| == 3 + |MainTerms(topic, 2)|
  {
    TagSequence("#" + StripWhitespace(topic), MainTerms(topic, 2), CategoryTags(topic, language))
  }

  /** Every raw tag starts with `#`. */
  lemma RawTagsAreTags(topic: string, language: string)
    ensures forall i :: 0 <= i < |RawTags(topic, language)| ==> IsTag(RawTags(topic, language)[i])
  {
    TagSequenceAllTags("#" + StripWhitespace(topic), MainTerms(topic, 2), CategoryTags(topic, language));
  }

  /** Removing repeats from a list of tags and cutting it to six leaves one
      to six distinct tags, the first one first. */
  lemma DistinctCutTags(raw: seq<string>)
    requires |raw| > 0 && forall i :: 0 <= i < |raw| ==> IsTag(raw[i])
    ensures var tags := Take(Dedup(raw), 6);
      1 <= |tags| <= 6 && tags[0] == raw[0] && NoDuplicates(tags)
      && forall i :: 0 <= i < |tags| ==> IsTag(tags[i])
  {
    DedupKeepsValues(raw);
    TakeNoDuplicates(Dedup(raw), 6);
  }

  /** The tag list: at most six distinct tags, each starting with `#`, the
      first being the topic with all whitespace removed. */
  function Tags(topic: string, language: string): (tags: seq<string>)
    ensures 1 <= |tags| <= 6
    ensures tags[0] == "#" + StripWhitespace(topic)
    ensures forall i :: 0 <= i < |tags| ==> IsTag(tags[i])
    ensures NoDuplicates(tags)
  {
    var raw := RawTags(topic, language);
    RawTagsAreTags(topic, language);
    DistinctCutTags(raw);
    Take(Dedup(raw), 6)
  }

  /** `generateTags`: pushes the topic tag and one tag per word, then the
      category pair, keeps first occurrences as a Set does, and cuts to
      six. */
  method GenerateTags(topic: string, language: string) returns (tags: seq<string>)
    ensures tags == Tags(topic, language)
    ensures 1 <= |tags| <= 6 && tags[0] == "#" + StripWhitespace(topic)
    ensures forall i :: 0 <= i < |tags| ==> IsTag(tags[i])
    ensures NoDuplicates(tags)
  {
    var words := MainTerms(topic, 2);
    var raw := ["#" + StripWhitespace(topic)];
    var i := 0;
    while i < |words|
      invariant 0 <= i <= |words|
      invariant raw == ["#" + StripWhitespace(topic)] + HashEach(words[..i])
    {
      raw := raw + ["#" + words[i]];
      i := i + 1;
    }
    assert words[..i] == words;
    raw := raw + CategoryTags(topic, language);
    assert raw == RawTags(topic, language);

    var unique := CollectDistinct(raw);
    tags := Take(unique, 6);
  }

  /** Without repeated tags nothing is removed: the list is the raw order
      (topic tag, word tags, category pair) cut to six. */
  lemma TagsInRawOrder(topic: string, language: string)
    requires NoDuplicates(RawTags(topic, language))
    ensures Tags(topic, language) == Take(RawTags(topic, language), 6)
  {
    DedupOfDistinct(RawTags(topic, language));
  }

  /** Repeated tags do not reorder the rest: the tags appear in the order
      in which each was first pushed. */
  lemma TagsInFirstPushOrder(topic: string, language: string)
    ensures forall i :: 0 <= i < |Tags(topic, language)| ==> Tags(topic, language)[i] in RawTags(topic, language)
    ensures forall i, j :: 0 <= i < j < |Tags(topic, language)| ==>
      FirstIndex(RawTags(topic, language), Tags(topic, language)[i])
        < FirstIndex(RawTags(topic, language), Tags(topic, language)[j])
  {
    var raw := RawTags(topic, language);
    DedupOrder(raw);
    assert forall i :: 0 <= i < |Tags(topic, language)| ==> Tags(topic, language)[i] == Dedup(raw)[i];
  }

  /** A topic of at most three words of two characters or more keeps both
      category tags. */
  lemma {:induction false} TagsKeepCategoryPair(topic: string, language: string)
    requires |MainTerms(topic, 2)| <= 3
    ensures var pair := CategoryTags(topic, language);
      pair[0] in Tags(topic, language) && pair[1] in Tags(topic, language)
  {
    var raw := RawTags(topic, language);
    var pair := CategoryTags(topic, language);
    var unique := Dedup(raw);
    DedupKeepsValues(raw);
    assert Tags(topic, language) == unique;
    assert raw[|raw| - 2] == pair[0] && raw[|raw| - 1] == pair[1];
  }

  // =====================================================================
  // Content outline
  // =====================================================================

  const KoreanFeatures: seq<string> := [
    "효율성 향상", "시간 절약", "비용 절감", "사용자 경험 개선", "생산성 증대",
    "접근성 향상", "성능 최적화", "확장성", "안정성", "보안 강화"
  ]

  const JapaneseFeatures: seq<string> := [
    "効率性向上", "時間節約", "コスト削減", "ユーザー体験向上", "生産性アップ",
    "アクセシビリティ向上", "パフォーマンス最適化", "拡張性", "安定性", "セキュリティ強化"
  ]

  const EnglishFeatures: seq<string> := [
    "Improved Efficiency", "Time-Saving", "Cost Reduction", "Enhanced User Experience",
    "Increased Productivity", "Better Accessibility", "Performance Optimization",
    "Scalability", "Reliability", "Enhanced Security"
  ]

  /** `features[language] || features["en"]`: an unknown language uses the
      English list. */
  function FeatureList(language: string): (features: seq<string>)
    ensures |features| == 10
  {
    match TextLanguage(language)
    case Ko => KoreanFeatures
    case Ja => JapaneseFeatures
    case En => EnglishFeatures
  }

  /** `getRandomFeature`: the feature at the drawn index. */
  function GetRandomFeature(language: string, draw: nat): (feature: string)
    requires draw < 10
    ensures feature in FeatureList(language)
  {
    FeatureList(language)[draw]
  }

  predicate EndsWithOneOf(line: string, options: seq<string>)
  {
    exists k :: 0 <= k < |options| && EndsWith(line, options[k])
  }

  lemma EndsWithAppended(prefix: string, feature: string)
    ensures EndsWith(prefix + feature, feature)
  {
    assert (prefix + feature)[|prefix|..] == feature;
  }

  predicate IsHeading(line: string, level: string)
  {
    level <= line
  }

  /** The fixed text of one language's outline: four H2 lines around the
      topic, the labels of the two H3 feature lines and two closing H2
      lines. */
  datatype OutlineText = OutlineText(
    whatIs: Around, importance: Around, keyFeatures: Around, usage: Around,
    feature1: string, feature2: string, faq: string, closing: string)

  /** The outline text of each language. The two feature lines carry
      different labels, so they stay apart even when both draws pick the
      same feature. */
  function OutlineTextFor(lang: Lang): (text: OutlineText)
    ensures text.feature1 != text.feature2
  {
    match lang
    case Ko => OutlineText(
      Around("", "이란 무엇인가?"), Around("", "의 중요성"), Around("", "의 주요 특징"),
      Around("", " 활용 방법"), "특징 1 - ", "특징 2 - ", "자주 묻는 질문", "마치며")
    case Ja => OutlineText(
      Around("", "とは何か？"), Around("", "の重要性"), Around("", "の主な特徴"),
      Around("", "の活用方法"), "特徴1 - ", "特徴2 - ", "よくある質問", "まとめ")
    case En => OutlineText(
      Around("What is ", "?"), Around("Why ", " is Important"), Around("Key Features of ", ""),
      Around("How to Utilize ", ""), "Feature 1 - ", "Feature 2 - ", "Frequently Asked Questions", "Conclusion")
  }

  /** An H2 line with the topic inside. */
  function TopicHeading(a: Around, topic: string): (line: string)
    ensures IsHeading(line, "H2: ") && Contains(line, topic)
  {
    ContainsAround("H2: " + a.before, topic, a.after);
    "H2: " + a.before + topic + a.after
  }

  /** The nine outline lines around a topic and two feature names: an H1
      title, H2 sections, and in the fifth and sixth lines two H3 lines
      ending with the features. The topic appears in the title and in four
      of the H2 lines. */
  function Outline(text: OutlineText, topic: string, f1: string, f2: string): (lines: seq<string>)
    ensures |lines| == 9
    ensures lines[0] == "H1: " + topic
    ensures forall i :: 1 <= i < 9 && i != 4 && i != 5 ==> IsHeading(lines[i], "H2: ")
    ensures IsHeading(lines[4], "H3: ") && EndsWith(lines[4], f1)
    ensures IsHeading(lines[5], "H3: ") && EndsWith(lines[5], f2)
    ensures forall i :: 0 <= i < 7 && i != 4 && i != 5 ==> Contains(lines[i], topic)
  {
    ContainsAtEnd("H1: ", topic);
    EndsWithAppended("H3: " + text.feature1, f1);
    EndsWithAppended("H3: " + text.feature2, f2);
    [
      "H1: " + topic,
      TopicHeading(text.whatIs, topic),
      TopicHeading(text.importance, topic),
      TopicHeading(text.keyFeatures, topic),
      "H3: " + text.feature1 + f1,
      "H3: " + text.feature2 + f2,
      TopicHeading(text.usage, topic),
      "H2: " + text.faq,
      "H2: " + text.closing]
  }

  /** `generateContentStructure`: the outline of the topic's text language
      with two drawn features; both H3 lines end with a feature of that
      language's list. */
  function GenerateContentStructure(topic: string, language: string, draw1: nat, draw2: nat): (lines: seq<string>)
    requires draw1 < 10 && draw2 < 10
    ensures |lines| == 9 && lines[0] == "H1: " + topic
    ensures EndsWithOneOf(lines[4], FeatureList(language)) && EndsWithOneOf(lines[5], FeatureList(language))
  {
    Outline(OutlineTextFor(TextLanguage(language)), topic, GetRandomFeature(language, draw1), GetRandomFeature(language, draw2))
  }

  /** The draws change only the two H3 lines. */
  lemma DrawsOnlyChangeFeatureLines(topic: string, language: string, a1: nat, a2: nat, b1: nat, b2: nat)
    requires a1 < 10 && a2 < 10 && b1 < 10 && b2 < 10
    ensures forall i :: 0 <= i < 9 && i != 4 && i != 5 ==>
      GenerateContentStructure(topic, language, a1, a2)[i] == GenerateContentStructure(topic, language, b1, b2)[i]
  {
  }

  // =====================================================================
  // The whole record
  // =====================================================================

  /** The five parts for one topic, with the two feature draws. */
  function Suggestions(topic: string, language: string, platform: string, draw1: nat, draw2: nat): (s: SeoSuggestions)
    requires draw1 < 10 && draw2 < 10
    ensures 1 <= |s.keywords| <= 5 && s.keywords[0] == topic
    ensures Contains(s.titleSuggestion, topic) && Contains(s.metaDescription, topic)
    ensures 1 <= |s.tags| <= 6 && s.tags[0] == "#" + StripWhitespace(topic)
    ensures |s.contentStructure| == 9 && s.contentStructure[0] == "H1: " + topic
  {
    SeoSuggestions(
      GenerateKeywords(topic, language, platform),
      GenerateTitleSuggestion(topic, language, platform),
      GenerateMetaDescription(topic, language),
      Tags(topic, language),
      GenerateContentStructure(topic, language, draw1, draw2))
  }

  /** `generateSeoSuggestions`: builds the record part by part. */
  method GenerateSeoSuggestions(topic: string, language: string, platform: string, draw1: nat, draw2: nat)
    returns (s: SeoSuggestions)
    requires draw1 < 10 && draw2 < 10
    ensures s == Suggestions(topic, language, platform, draw1, draw2)
    ensures 1 <= |s.keywords| <= 5 && s.keywords[0] == topic
    ensures 1 <= |s.tags| <= 6 && NoDuplicates(s.tags) && forall i :: 0 <= i < |s.tags| ==> IsTag(s.tags[i])
    ensures |s.contentStructure| == 9
  {
    var tags := GenerateTags(topic, language);
    s := SeoSuggestions(
      GenerateKeywords(topic, language, platform),
      GenerateTitleSuggestion(topic, language, platform),
      GenerateMetaDescription(topic, language),
      tags,
      GenerateContentStructure(topic, language, draw1, draw2));
  }

  /** Two runs on the same input differ at most in the two H3 lines. */
  lemma OnlyFeatureLinesVary(topic: string, language: string, platform: string, a1: nat, a2: nat, b1: nat, b2: nat)
    requires a1 < 10 && a2 < 10 && b1 < 10 && b2 < 10
    ensures var s, t := Suggestions(topic, language, platform, a1, a2), Suggestions(topic, language, platform, b1, b2);
      s.keywords == t.keywords && s.titleSuggestion == t.titleSuggestion
      && s.metaDescription == t.metaDescription && s.tags == t.tags
      && forall i :: 0 <= i < 9 && i != 4 && i != 5 ==> s.contentStructure[i] == t.contentStructure[i]
  {
    DrawsOnlyChangeFeatureLines(topic, language, a1, a2, b1, b2);
  }

  /** The platform affects the keywords only. */
  lemma PlatformOnlyChangesKeywords(topic: string, language: string, p1: string, p2: string, draw1: nat, draw2: nat)
    requires draw1 < 10 && draw2 < 10
    ensures var s, t := Suggestions(topic, language, p1, draw1, draw2), Suggestions(topic, language, p2, draw1, draw2);
      s.titleSuggestion == t.titleSuggestion && s.metaDescription == t.metaDescription
      && s.tags == t.tags && s.contentStructure == t.contentStructure
  {
  }

  /** An unknown language gets Korean keywords but English text everywhere
      else: the keyword table falls back to Korean Google, every text
      branch falls back to English. */
  lemma UnknownLanguageMixesKoreanAndEnglish(topic: string, language: string, platform: string, draw1: nat, draw2: nat)
    requires language != "ko" && language != "ja" && language != "en"
    requires draw1 < 10 && draw2 < 10
    ensures var s, e := Suggestions(topic, language, platform, draw1, draw2), Suggestions(topic, "en", platform, draw1, draw2);
      s.keywords == KoreanGoogleKeywords(topic)
      && s.titleSuggestion == e.titleSuggestion && s.metaDescription == e.metaDescription
      && s.tags == e.tags && s.contentStructure == e.contentStructure
  {
    assert TextLanguage(language) == En == TextLanguage("en");
    assert KeywordTable(language, platform) == None;
  }
}
