# Rule-based SEO suggestions, modelled in Dafny

This project models the rule-based SEO suggestion generator of a blog-writing
command-line tool (`lib/seoAnalyzer.js`). The generator takes a blog topic, a
language code and a search platform. From fixed templates it builds a record of
five parts:

- **keywords**: at most five. The generator is picked from a
  (language, platform) table, and an unlisted pair falls back to Korean Google.
- **title**: a beginner's guide for a technical topic. Otherwise Korean and
  Japanese get a complete guide for a topic under 15 characters, and a
  "5 key points" title for a longer one.
- **meta description**: one template per language.
- **tags**:
  - They are pushed in this order: the topic with whitespace removed, one
    `#word` per word, then a technical or general pair.
  - A `Set` then removes repeats, and the list is cut to six.
- **content outline**: nine lines. Two of them name a feature drawn at random
  from a ten-item list.

A topic is *technical* when its lower-cased text contains one of 58 lower-cased
keywords, anywhere, even inside another word.

The project has two modules:

- `js_strings.dfy` (module `JsStrings`) models the JavaScript built-ins the
  generator relies on:
  - `split(" ")`, with its inverse `join(" ")`;
  - the length filter;
  - `includes`;
  - ASCII `toLowerCase`;
  - `replace(/\s+/g, "")`, with ECMAScript's exact `\s` set;
  - `[...new Set(xs)]`, which keeps first occurrences;
  - `slice(0, n)`.
- `seo_analyzer.dfy` (module `SeoAnalyzer`) models the generator.
  - Straight-line `push` sequences become sequence concatenation.
  - `generateTags`, with its `forEach` loop and its `Set`, is a method with
    loops. It is proved equal to the function `Tags`, and the properties are
    proved of `Tags`.
  - `generateSeoSuggestions` is a method proved equal to the function
    `Suggestions`.

Some consequences of the code are proved as lemmas:

- For a technical topic, the cut to five keeps only the first of the three
  technical keyword variations (`TechKeywordsCutAtTutorial`). For such a topic
  the Naver and Yahoo lists equal the Google ones.
- "happy" is a technical topic, because it contains "app".
- An unknown language gets Korean keywords but English text everywhere else.

Main terms come from `split(" ")`, which splits on single spaces only, not on
all whitespace. Only the first tag strips all whitespace.

## Model

| member | source | states |
|---|---|---|
| JsStrings.SplitOnSpace | lib/seoAnalyzer.js:55 | `split(" ")` yields at least one piece, and no piece contains a space |
| JsStrings.JoinSplit | lib/seoAnalyzer.js:55 | joining the pieces of `split(" ")` with single spaces gives back the original string |
| JsStrings.SplitJoin | lib/seoAnalyzer.js:55 | splitting the join of space-free pieces gives back the same pieces |
| JsStrings.SplitSpaceFree | lib/seoAnalyzer.js:55 | a string without spaces splits into itself alone |
| JsStrings.FilterMinLength | lib/seoAnalyzer.js:55 | the filter never keeps more pieces than it is given |
| JsStrings.FilterMinLengthKeeps | lib/seoAnalyzer.js:55 | the length filter keeps exactly the pieces whose length reaches the minimum |
| JsStrings.FilterMinLengthAppend | lib/seoAnalyzer.js:55 | filtering a concatenation is concatenating the filtered parts, so order and repeats are kept |
| JsStrings.FilterMinLengthSingle | lib/seoAnalyzer.js:55 | a single piece is kept exactly when its length reaches the minimum |
| JsStrings.FilterMinLengthFirst | lib/seoAnalyzer.js:55 | the first kept piece is the first piece whose length reaches the minimum |
| JsStrings.FilterMonotone | lib/seoAnalyzer.js:139 | when no piece reaches a lower minimum, none reaches a higher one |
| JsStrings.Contains | lib/seoAnalyzer.js:347 | `includes` fails when the needle is longer than the text, and succeeds when the text starts with the needle |
| JsStrings.ContainsMeansOccurs | lib/seoAnalyzer.js:347 | `includes` is true exactly when the needle occurs at some position |
| JsStrings.ContainsWrapped | lib/seoAnalyzer.js:347 | adding text around a string keeps every substring it had |
| JsStrings.ContainsAround | lib/seoAnalyzer.js:347 | a string is found in any text built around it |
| JsStrings.Lower | lib/seoAnalyzer.js:347 | `toLowerCase` keeps the length, leaves no upper-case ASCII letter, maps each one to its lower-case partner and keeps every other character |
| JsStrings.LowerConcat | lib/seoAnalyzer.js:347 | lowering distributes over concatenation |
| JsStrings.LowerOfLower | lib/seoAnalyzer.js:347 | a string without upper-case letters is its own lower case |
| JsStrings.StripWhitespace | lib/seoAnalyzer.js:205 | the result holds no `\s` character and keeps every other character of the input; a string without whitespace is unchanged |
| JsStrings.StripWhitespaceAppend | lib/seoAnalyzer.js:205 | stripping a concatenation is concatenating the stripped parts, so order and count are kept |
| JsStrings.StripWhitespaceChar | lib/seoAnalyzer.js:205 | a single character is dropped exactly when it is `\s` whitespace |
| JsStrings.DedupKeepsValues | lib/seoAnalyzer.js:237 | `[...new Set(s)]` has no duplicates and holds exactly the values of `s` |
| JsStrings.FirstIndex | lib/seoAnalyzer.js:237 | the position where a value first occurs: it holds the value and no earlier position does |
| JsStrings.DedupOrder | lib/seoAnalyzer.js:237 | the `Set` lists its values in the order of their first occurrence |
| JsStrings.DedupOfDistinct | lib/seoAnalyzer.js:237 | a list without repeats passes through the `Set` unchanged |
| JsStrings.Dedup | lib/seoAnalyzer.js:237 | the `Set` never grows the list and keeps its first element first |
| JsStrings.CollectDistinct | lib/seoAnalyzer.js:237 | building the `Set` element by element gives the first-occurrence deduplication |
| JsStrings.Take | lib/seoAnalyzer.js:74 | `slice(0, n)` is a prefix of length `min(n, length)` |
| JsStrings.TakeAppend | lib/seoAnalyzer.js:85-89 | pushing onto a list that fits within `n` keeps it as a prefix of the cut; pushing onto a full list changes nothing |
| JsStrings.TakeNoDuplicates | lib/seoAnalyzer.js:237 | cutting a list without duplicates leaves none |
| SeoAnalyzer.TextLanguage | lib/seoAnalyzer.js:158-185 | the text branches test for exactly "ko", then exactly "ja"; everything else is English |
| SeoAnalyzer.SomeKeywordIn | lib/seoAnalyzer.js:346-348 | `some(... includes ...)` holds exactly when some keyword is found |
| SeoAnalyzer.IsTechTopic | lib/seoAnalyzer.js:283-349 | a technical topic contains, ignoring case, one of the 58 keywords; `IsTechTopicMeans` gives the converse |
| SeoAnalyzer.SomeKeywordInAt | lib/seoAnalyzer.js:346-348 | a match at any position of the keyword list makes `some` true |
| SeoAnalyzer.IsTechTopicMeans | lib/seoAnalyzer.js:283-349 | a topic is technical exactly when its lower-cased text contains one of the lower-cased keywords |
| SeoAnalyzer.TechTopicWrapped | lib/seoAnalyzer.js:346-348 | adding text before or after a technical topic keeps it technical |
| SeoAnalyzer.ReactIsTechnical | lib/seoAnalyzer.js:302-347 | case is ignored: "React" is technical |
| SeoAnalyzer.KoreanReactIsTechnical | lib/seoAnalyzer.js:303-347 | "리액트 공부" is technical |
| SeoAnalyzer.HappyIsTechnical | lib/seoAnalyzer.js:325-347 | plain substring matching: "happy" is technical because it contains "app" |
| SeoAnalyzer.MainTerms | lib/seoAnalyzer.js:55 | there are no more main terms than space-separated pieces |
| SeoAnalyzer.MainTermsAreLongPieces | lib/seoAnalyzer.js:55 | the main terms are exactly the space-separated pieces that reach the minimum length, none containing a space; the first main term is the first piece that is long enough |
| SeoAnalyzer.NoShortTermsNoLongTerms | lib/seoAnalyzer.js:139 | no term of two characters means no term of three |
| SeoAnalyzer.KoreanGoogleKeywords | lib/seoAnalyzer.js:51-75 | one to five keywords, the topic first; the topic alone exactly when no term has two characters; otherwise five for a technical topic and four for any other, each after the first starting with the first main term |
| SeoAnalyzer.KoreanNaverKeywords | lib/seoAnalyzer.js:78-90 | one to five keywords, the topic first; the topic alone exactly when no term has two characters; otherwise five, each after the first starting with the first main term |
| SeoAnalyzer.JapaneseGoogleKeywords | lib/seoAnalyzer.js:93-117 | one to five keywords, the topic first; the topic alone exactly when no term has two characters; otherwise five for a technical topic and four for any other, each after the first starting with the first main term |
| SeoAnalyzer.JapaneseYahooKeywords | lib/seoAnalyzer.js:120-132 | one to five keywords, the topic first; the topic alone exactly when no term has two characters; otherwise five, each after the first starting with the first main term |
| SeoAnalyzer.EnglishGoogleKeywords | lib/seoAnalyzer.js:135-153 | one to five keywords, the topic first; the topic alone exactly when no term has three characters; otherwise five, each after the first containing the first main term |
| SeoAnalyzer.NaverExtendsGoogle | lib/seoAnalyzer.js:78-90 | the Korean Google list is a prefix of the Naver list; they are equal for a technical topic or one without main terms |
| SeoAnalyzer.YahooExtendsGoogle | lib/seoAnalyzer.js:120-132 | the Japanese Google list is a prefix of the Yahoo list; they are equal for a technical topic or one without main terms |
| SeoAnalyzer.TechKeywordsCutAtTutorial | lib/seoAnalyzer.js:61-74 | for a technical topic with a main term, the Korean list is exactly the topic, three variations and the "튜토리얼" one |
| SeoAnalyzer.TechKeywordsCutAtTutorialJapanese | lib/seoAnalyzer.js:103-116 | the same cut for the Japanese list, ending with "チュートリアル" |
| SeoAnalyzer.KeywordTable | lib/seoAnalyzer.js:28-41 | a generator is listed exactly for ko/google, ko/naver, ja/google, ja/yahoo, en/google and en/naver |
| SeoAnalyzer.RunKeywordGenerator | lib/seoAnalyzer.js:47 | every generator in the table gives one to five keywords, the topic first |
| SeoAnalyzer.GenerateKeywords | lib/seoAnalyzer.js:26-48 | for every language and platform, one to five keywords, the topic first |
| SeoAnalyzer.DispatchFallback | lib/seoAnalyzer.js:44-47 | a pair without a table entry gets the Korean Google list |
| SeoAnalyzer.EnglishNaverIsEnglishGoogle | lib/seoAnalyzer.js:37-40 | en/naver yields the same list as en/google |
| SeoAnalyzer.UnlistedPairsFallBack | lib/seoAnalyzer.js:44-47 | ja/naver and fr/bing yield the ko/google list |
| SeoAnalyzer.NoMainTermsTopicOnly | lib/seoAnalyzer.js:26-153 | without a term of two characters, every language and platform yields the topic alone |
| SeoAnalyzer.TitleStyleFor | lib/seoAnalyzer.js:156-186 | English and unknown languages never get the complete-guide template |
| SeoAnalyzer.TitleTemplate | lib/seoAnalyzer.js:161-183 | every title template puts non-empty text after the topic |
| SeoAnalyzer.GenerateTitleSuggestion | lib/seoAnalyzer.js:156-186 | the title contains the topic and is longer than it |
| SeoAnalyzer.TitleStyleChoice | lib/seoAnalyzer.js:158-185 | beginner's guide exactly for technical topics. In ko/ja, complete guide exactly for non-technical topics under 15 characters, key points exactly for the rest; elsewhere key points exactly for non-technical topics |
| SeoAnalyzer.SuffixesEndApart | lib/seoAnalyzer.js:161-183 | two different templates of one language end in different characters |
| SeoAnalyzer.TemplateEndingReveals | lib/seoAnalyzer.js:161-183 | text wrapped in one template ends with another template's closing text exactly when the templates are the same |
| SeoAnalyzer.TitleRevealsStyle | lib/seoAnalyzer.js:156-186 | a title ends with a template's closing text exactly when that template was chosen |
| SeoAnalyzer.TitleDeterminesTopic | lib/seoAnalyzer.js:156-186 | in one language, equal titles mean equal topics, whatever the platforms |
| SeoAnalyzer.TitleIgnoresPlatform | lib/seoAnalyzer.js:156-186 | the title does not depend on the platform |
| SeoAnalyzer.GenerateMetaDescription | lib/seoAnalyzer.js:189-197 | the description contains the topic and is longer than it; in Korean and Japanese it starts with the topic |
| SeoAnalyzer.MetaDescriptionDeterminesTopic | lib/seoAnalyzer.js:189-197 | in one language, equal descriptions mean equal topics |
| SeoAnalyzer.CategoryPair | lib/seoAnalyzer.js:213-235 | each of the six pairs holds two different tags, each starting with `#` |
| SeoAnalyzer.CategoryPairTellsTech | lib/seoAnalyzer.js:213-235 | in one language the technical and the general pair differ |
| SeoAnalyzer.CategoryTags | lib/seoAnalyzer.js:213-235 | the closing pair holds two different tags, each starting with `#` |
| SeoAnalyzer.CategoryTagsTellTech | lib/seoAnalyzer.js:213-235 | in one language, two topics get the same pair exactly when both or neither are technical |
| SeoAnalyzer.HashEach | lib/seoAnalyzer.js:208-210 | one tag per word, in order, each `#` followed by the word |
| SeoAnalyzer.TagSequence | lib/seoAnalyzer.js:201-235 | push order: the topic tag, then one `#word` per word, then the pair |
| SeoAnalyzer.TagSequenceAllTags | lib/seoAnalyzer.js:205-235 | with a tag first and a pair of tags last, every pushed entry starts with `#` |
| SeoAnalyzer.RawTags | lib/seoAnalyzer.js:200-235 | before deduplication there are three tags more than main terms |
| SeoAnalyzer.RawTagsAreTags | lib/seoAnalyzer.js:200-235 | every pushed tag starts with `#` |
| SeoAnalyzer.Tags | lib/seoAnalyzer.js:200-238 | one to six tags, all different, each starting with `#`, the first being `#` and the topic with all whitespace removed |
| SeoAnalyzer.GenerateTags | lib/seoAnalyzer.js:200-238 | the pushing loop and the `Set` loop produce exactly `Tags`, and so its properties |
| SeoAnalyzer.DistinctCutTags | lib/seoAnalyzer.js:237 | removing repeats from a list of tags and cutting it to six leaves one to six distinct tags, the first one first |
| SeoAnalyzer.TagsInFirstPushOrder | lib/seoAnalyzer.js:205-237 | every tag was pushed, and the tags appear in the order in which each was first pushed |
| SeoAnalyzer.TagsInRawOrder | lib/seoAnalyzer.js:237 | without repeated tags the result is the push order cut to six |
| SeoAnalyzer.TagsKeepCategoryPair | lib/seoAnalyzer.js:213-237 | a topic with at most three main terms keeps both category tags |
| SeoAnalyzer.FeatureList | lib/seoAnalyzer.js:353-392 | every language, unknown ones included, has a ten-item feature list |
| SeoAnalyzer.GetRandomFeature | lib/seoAnalyzer.js:352-396 | the drawn feature belongs to the language's list |
| SeoAnalyzer.OutlineTextFor | lib/seoAnalyzer.js:245-275 | in every language the two feature lines carry different labels |
| SeoAnalyzer.TopicHeading | lib/seoAnalyzer.js:247-272 | a topic heading starts with `H2: ` and contains the topic |
| SeoAnalyzer.Outline | lib/seoAnalyzer.js:241-278 | nine lines. Line 0 is `H1: ` and the topic; lines 4 and 5 are H3 lines ending with the two features; the others are H2 lines; the topic appears in lines 0-3 and 6 |
| SeoAnalyzer.GenerateContentStructure | lib/seoAnalyzer.js:241-278 | nine lines, `H1: ` and the topic first, both H3 lines ending with a feature of the language's list |
| SeoAnalyzer.DrawsOnlyChangeFeatureLines | lib/seoAnalyzer.js:250-271 | the two draws change only the two H3 lines |
| SeoAnalyzer.Suggestions | lib/seoAnalyzer.js:6-23 | one to five keywords with the topic first, a title and a description containing the topic, one to six tags starting with the whitespace-free topic tag, nine outline lines starting with the H1 line |
| SeoAnalyzer.GenerateSeoSuggestions | lib/seoAnalyzer.js:6-23 | the record is made of the five parts; one to five keywords with the topic first, one to six distinct `#` tags, nine outline lines |
| SeoAnalyzer.OnlyFeatureLinesVary | lib/seoAnalyzer.js:14-20 | two runs on the same input differ at most in the two H3 lines |
| SeoAnalyzer.PlatformOnlyChangesKeywords | lib/seoAnalyzer.js:14-20 | the platform affects the keywords only |
| SeoAnalyzer.UnknownLanguageMixesKoreanAndEnglish | lib/seoAnalyzer.js:14-20 | an unknown language gets the Korean Google keywords and the English title, description, tags and outline |

## Left out

- `lib/services/openaiService.js` is not part of this model. It is a network
  client for a language-model service, together with its fallback to the rule
  generator.
- `app.js` and `start.js` are not part of this model. They are CLI prompts,
  flags and console output, and a child-process launcher.
- `Math.random` is not modelled. Each of the two feature draws in the outline
  is a parameter below ten, so the uniform distribution is not modelled.
- The default arguments of `generateSeoSuggestions` (`"ko"`, `"google"`) are
  not modelled. Every caller in the model passes all three arguments.
- Property lookups that hit inherited JavaScript object members are not
  modelled, for example platform `"constructor"` or language `"toString"`.
  The model treats the keyword table and the feature table as holding only
  their own keys.
- JsStrings.Lower: only the ASCII letters are lowered. Unicode case mapping
  (accented Latin, Greek, Cyrillic, full-width letters) is not modelled, so a
  keyword found only through non-ASCII case folding is missed.
- Characters are not UTF-16 code units. A character stands for one code unit,
  so a character outside the Basic Multilingual Plane counts once here but
  twice in JavaScript. This affects the length filters and the under-15 title
  test.
- The local arrays built by `push` are modelled as sequence values. The
  generators create a fresh array on each call and nothing aliases it, so no
  in-place update is represented.
- JsStrings.FilterMinLength, JsStrings.StripWhitespace and JsStrings.Dedup:
  their own contracts state bounds and membership only. Order and count are
  the lemmas `FilterMinLengthAppend` with `FilterMinLengthSingle`,
  `StripWhitespaceAppend` with `StripWhitespaceChar`, and `DedupOrder` with
  `DedupKeepsValues`.
- SeoAnalyzer.IsTechTopic: its own contract gives only the direction from technical to
  a keyword found, which keeps the proofs that use it small; the lemma
  `IsTechTopicMeans` proves both directions.
