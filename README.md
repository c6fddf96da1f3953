# Wathiq — a verified model of the application core

Wathiq is a React/TypeScript web application for digital safety: it scans
images and videos for manipulation, checks URLs, verifies news claims, rates
passwords, keeps a history of scans and runs a small gamified learning path
whose lessons and quizzes are generated by a language model and cached in the
browser's local storage.

This Dafny project models the logic of that application, module by module:

| Dafny module | file | models |
|---|---|---|
| `Options` | options.dfy | `undefined`/`null` and thrown errors (`Option`, `Result`) |
| `Collections` | collections.dfy | the `Set` of completed modules (insertion-ordered, no duplicates), the module cache as a keyed record (`{...prev, [id]: data}`), `Array.prototype.filter` |
| `JsString` | jsstring.dfy | the JavaScript string operations the core relies on: `trim` (ECMAScript white space and line terminators), `toLowerCase` on ASCII, `startsWith`, `indexOf`, `split`/`join`, `replace` of one character, UTF-16 `length`, lazy and single-line regex captures |
| `Json` | json.dfy | `JSON.stringify` of the stored records and `JSON.parse` of the subset it produces, with the round trip proved |
| `Types` | types.dfy | the records of types.ts |
| `Storage` | storage.dfy | `window.localStorage` as a class whose reads and writes may throw, and `getStoredData` |
| `ProgressCodec`, `Progress` | progress_codec.dfy, progress.dfy | the `useUserProgress` hook: loading, the points and level rule, `completeModule`, `cacheModuleContent`, persistence and reload |
| `Theme` | theme.dfy | `ThemeProvider` and `LanguageProvider`: the stored theme and language, toggling, the text direction, and the translation lookup with its English fallback |
| `Password` | password.dfy | `PasswordCheckerPage`: turning the strength estimator's answer into a verdict, recommendations and positive points |
| `Gemini` | gemini.dfy | `geminiService.ts`: the missing-key and failure paths of every call, the parsing of the URL reply text and grounding sources, and the quiz option normalisation |
| `History` | history.dfy | `HistoryPage`: the trust label, the file icon and the search/type filter |
| `Scanner` | scanner.dfy | `ScannerPage`: the file kind, the audio placeholder, the verdict shown and the scan handler |
| `News` | news.dfy | `NewsVerificationPage`: the credibility title and the check handler |
| `UrlScan` | urlscan.dfy | `UrlScanPage`: the URL validation pattern as an executable recogniser proved equal to the pattern, the normalisation of the typed URL and the scan handler |
| `Learning` | learning.dfy | `LearningPage`: the fixed learning path, merging of cached lessons, the next and locked nodes, the quiz state machine and the modal flow |
| `Markdown` | markdown.dfy | `simpleMarkdownToHtml` in utils/helpers.ts: section markers, blocks, block classification and inline emphasis |

Page components become classes whose fields are the component's state
variables and whose methods are its event handlers; the network, the clock,
the file reader and the strength estimator become parameters that carry their
answer (`Reply`, `EstimatorOutcome`, `ReadOutcome`). Pure helpers become
functions with lemmas about them.

## Model

| member | source | states |
|---|---|---|
| Collections.Dedup | hooks/useUserProgress.ts:41 | building a `Set` from the stored array keeps exactly its elements, without duplicates and no more of them |
| Collections.DedupNoDups | hooks/useUserProgress.ts:41 | a duplicate-free array comes back from the `Set` unchanged and in order |
| Collections.Add | hooks/useUserProgress.ts:94 | `new Set(prev).add(id)` holds the old members and `id`; an existing member leaves it unchanged, a new one is appended last |
| Collections.Lookup | pages/LearningPage.tsx:134 | `moduleCache[id]` is present exactly when `id` is a key of the cache |
| Collections.Put | hooks/useUserProgress.ts:85-88 | `{...prev, [id]: data}` grows by one entry only for a new key |
| Collections.LookupPutSame | hooks/useUserProgress.ts:85-88 | after the update, reading `id` gives the new data |
| Collections.LookupPutOther | hooks/useUserProgress.ts:85-88 | the update leaves every other key's entry as it was |
| Collections.PutKeys | hooks/useUserProgress.ts:85-88 | the keys after the update are the old keys plus `id`, still without duplicates |
| Collections.PutFresh | hooks/useUserProgress.ts:85-88 | a new key is appended at the end, as object key order has it for keys that are not integer-like (the module ids) |
| Collections.FilterMembers | pages/HistoryPage.tsx:38-41 | `filter` keeps exactly the elements that pass the test |
| Collections.FilterSubsequence | pages/HistoryPage.tsx:38-41 | `filter` keeps the original order |
| Collections.FilterIdempotent | pages/HistoryPage.tsx:38-41 | filtering twice with the same test changes nothing more |
| Collections.FilterAll | pages/HistoryPage.tsx:38-41 | when every element passes, `filter` returns the array unchanged |
| Collections.FilterFuse | pages/HistoryPage.tsx:38-41 | two chained filters equal one filter with both tests |
| Collections.FilterCount | pages/HistoryPage.tsx:38-41 | `filter` keeps every copy of a passing element and no copy of a failing one |
| JsString.TrimSpec | utils/helpers.ts:27 | `trim` returns the slice between leading and trailing white space and ends on no white space |
| JsString.TrimIdempotent | utils/helpers.ts:27 | trimming twice equals trimming once |
| JsString.TrimEmptyIff | pages/NewsVerificationPage.tsx:99 | a text trims to the empty string exactly when it is all white space |
| JsString.ToLower | pages/HistoryPage.tsx:41 | lower-casing keeps the length and maps every character on its own |
| JsString.IndexOf | services/geminiService.ts:337 | the result is the first position where the pattern occurs, and none means it occurs nowhere |
| JsString.JoinSplit | utils/helpers.ts:26 | joining the pieces of a `split` with the same separator gives the text back |
| JsString.SplitPiecesFree | utils/helpers.ts:26 | no piece of a `split` contains the separator |
| JsString.Utf16Length | pages/PasswordCheckerPage.tsx:146 | `length` counts UTF-16 code units: between one and two per character |
| JsString.TrimAll | utils/helpers.ts:27 | `map(block => block.trim())` trims each element in place |
| JsString.BetweenLazy | services/geminiService.ts:337 | a lazy `([\s\S]*?)` capture stops at the first closing text, so it contains none |
| JsString.LineAfter | services/geminiService.ts:338 | a `(.*)` capture is absent when the heading is absent and never spans a line terminator |
| Json.GetSpec | hooks/useUserProgress.ts:32 | reading a key of a parsed object finds it exactly when present, and a repeated key yields its last value |
| Json.RoundTrip | hooks/useUserProgress.ts:32 | `JSON.parse(JSON.stringify(v))` gives back `v` for every stored value |
| Json.ParseStringSerialize | hooks/useUserProgress.ts:32 | every string, escapes included, parses back from its JSON text |
| Json.ParseNumberSerialize | hooks/useUserProgress.ts:32 | every integer parses back from its JSON text |
| Types.AgeGroupRoundTrip | types.ts:9 | the age group names decode back to their group |
| Types.LanguageRoundTrip | types.ts:10 | the language codes decode back to their language |
| Storage.LocalStorage.GetItem | hooks/useUserProgress.ts:31 | `getItem` throws for unreadable keys, is missing for absent keys and otherwise returns the stored text |
| Storage.LocalStorage.constructor | hooks/useUserProgress.ts:31 | the storage starts with the given items and the given failing keys |
| Storage.LocalStorage.Written | hooks/useUserProgress.ts:50 | a successful `setItem` stores the text under its key and touches no other key; a failing one changes nothing |
| Storage.LocalStorage.SetItem | hooks/useUserProgress.ts:48-54 | the write succeeds exactly when the key is writable, and the new items are `Written` of the old |
| Storage.LocalStorage.Save | hooks/useUserProgress.ts:48-54 | saving stores `JSON.stringify` of the value under its key, or nothing when the write throws |
| Storage.StoredData | hooks/useUserProgress.ts:29-37 | a throw, a missing key, an empty text or unparsable text yields the fallback; otherwise the parsed value |
| Storage.StoredDataOfSaved | hooks/useUserProgress.ts:29-50 | reading back what was saved gives the saved value |
| ProgressCodec.UserRoundTrip | hooks/useUserProgress.ts:50 | the stored user record decodes back to the same user, optional fields included |
| ProgressCodec.StatsRoundTrip | hooks/useUserProgress.ts:68 | the stored statistics decode back unchanged |
| ProgressCodec.CompletedRoundTrip | hooks/useUserProgress.ts:59 | the stored completed-module array decodes back to the same set in the same order |
| ProgressCodec.QuestionRoundTrip | hooks/useUserProgress.ts:78 | a stored quiz question decodes back unchanged |
| ProgressCodec.ContentRoundTrip | hooks/useUserProgress.ts:78 | a stored lesson (content and quiz, each optional) decodes back unchanged |
| ProgressCodec.CacheRoundTrip | hooks/useUserProgress.ts:78 | the stored module cache decodes back to the same entries in the same order |
| ProgressCodec.DecodeCompleted | hooks/useUserProgress.ts:41 | the loaded completed modules hold no duplicates |
| ProgressCodec.DecodeCache | hooks/useUserProgress.ts:45 | the loaded cache has one entry per key |
| Progress.Level | hooks/useUserProgress.ts:98-99 | the level is one plus the number of whole 500-point steps in the total |
| Progress.Award | hooks/useUserProgress.ts:96-105 | awarding adds the points to the total, recomputes the level from the new total and changes no other field |
| Progress.LevelMonotonic | hooks/useUserProgress.ts:99 | more points never give a lower level |
| Progress.InitialLevel | hooks/useUserProgress.ts:12-16 | the initial user's level agrees with the level rule |
| Progress.LoadCompleted | hooks/useUserProgress.ts:41 | the loaded completed modules hold no duplicates |
| Progress.LoadCache | hooks/useUserProgress.ts:45 | the loaded cache has one entry per key |
| Progress.FreshStart | hooks/useUserProgress.ts:12-45 | when storage throws or holds nothing, the hook starts from the initial user, no completed modules, the mocked statistics and an empty cache |
| Progress.Reload | hooks/useUserProgress.ts:29-82 | whatever the hook saved is what it loads on the next start |
| Progress.UnreadableText | hooks/useUserProgress.ts:29-37 | stored text that does not parse falls back to the initial user and statistics |
| Progress.ProgressStore.constructor | hooks/useUserProgress.ts:39-82 | the hook loads each of its four keys and then writes each back |
| Progress.ProgressStore.CompleteModule | hooks/useUserProgress.ts:91-107 | a completed module changes nothing; a new one is added to the set, its points awarded, and the user and set saved |
| Progress.ProgressStore.CacheModuleContent | hooks/useUserProgress.ts:84-89 | the cache entry for the module is replaced, the user and set are unchanged, and the cache is saved |
| Progress.CompleteTwice | hooks/useUserProgress.ts:92 | completing the same module twice awards its points once |
| Theme.Toggle | contexts/ThemeContext.tsx:120-122 | toggling always changes the theme |
| Theme.ToggleTwice | contexts/ThemeContext.tsx:120-122 | toggling twice restores the theme |
| Theme.InitialTheme | contexts/ThemeContext.tsx:97-107 | a stored "light" or "dark" wins, a throwing read gives light, otherwise the system preference decides |
| Theme.ThemeProvider.constructor | contexts/ThemeContext.tsx:96-118 | the provider starts with the initial theme and writes it to storage |
| Theme.ThemeProvider.ToggleTheme | contexts/ThemeContext.tsx:109-122 | toggling flips the theme and saves it |
| Theme.InitialLanguage | contexts/ThemeContext.tsx:151-158 | a stored "en" or "ar" wins; anything else, or a throwing read, gives English |
| Theme.Direction | contexts/ThemeContext.tsx:163 | the document is right-to-left exactly for Arabic |
| Theme.Find | contexts/ThemeContext.tsx:175 | a key is found in a translation group exactly when the group has it |
| Theme.WalkAppend | contexts/ThemeContext.tsx:174-176 | following a dotted key path part by part equals following it whole |
| Theme.Translate | contexts/ThemeContext.tsx:171-186 | `t` returns a non-empty translation or the key itself |
| Theme.TranslateResolved | contexts/ThemeContext.tsx:174-185 | a key that resolves to a non-empty entry in the current language gives that entry |
| Theme.TranslateFallback | contexts/ThemeContext.tsx:176-183 | a key missing in the current language falls back to English, and to the key itself when English lacks it too |
| Theme.TranslateEnglish | contexts/ThemeContext.tsx:171-186 | in English, `t` gives the English entry or the key |
| Theme.LanguageProvider.constructor | contexts/ThemeContext.tsx:150-169 | the provider starts with the stored language and writes it back |
| Theme.LanguageProvider.SetLanguage | contexts/ThemeContext.tsx:160-169 | choosing a language sets it and saves it |
| Theme.LanguageProvider.T | contexts/ThemeContext.tsx:171-186 | `t` translates in the provider's current language |
| Password.VerdictRank | pages/PasswordCheckerPage.tsx:137 | every verdict has its place in the five-step verdict scale |
| Password.Evaluate | pages/PasswordCheckerPage.tsx:135-163 | the score and verdict are the entries of the two maps at the estimator's grade |
| Password.GradeMonotonic | pages/PasswordCheckerPage.tsx:136-137 | a higher grade gives a higher score and a stronger verdict |
| Password.MeterAgreesWithVerdict | pages/PasswordCheckerPage.tsx:22-29 | the strength meter's label for a grade's score is that grade's verdict |
| Password.MeterMonotonic | pages/PasswordCheckerPage.tsx:23-29 | a higher score never shows a weaker meter label |
| Password.EnhancementsOrder | pages/PasswordCheckerPage.tsx:139-142 | the estimator's warning comes first, followed by its suggestions in order |
| Password.WeakGetsAdvice | pages/PasswordCheckerPage.tsx:154-156 | a weak password always gets at least one recommendation, the generic one when the estimator gave none |
| Password.AdviceFromEstimator | pages/PasswordCheckerPage.tsx:139-154 | from grade 2 up the recommendations are exactly the estimator's |
| Password.NoPraiseWhenWeak | pages/PasswordCheckerPage.tsx:144-145 | below grade 3 there are no positive points |
| Password.PraiseConditions | pages/PasswordCheckerPage.tsx:145-151 | from grade 3 the length note appears exactly at 12 code units or more, the mix note exactly with a digit, a letter and a symbol |
| Password.PasswordChecker.constructor | pages/PasswordCheckerPage.tsx:120-123 | the page starts with an empty password, no result and no error |
| Password.PasswordChecker.SetPassword | pages/PasswordCheckerPage.tsx:120 | typing changes only the password |
| Password.PasswordChecker.Analyze | pages/PasswordCheckerPage.tsx:126-170 | an empty password clears the result; a throwing estimator sets the failure message; otherwise the result is the evaluation and the error is cleared |
| Gemini.Call | services/geminiService.ts:171-217 | a missing key throws the configuration error, a failed request throws the call's own message, otherwise the reply is returned |
| Gemini.FindVerdict | services/geminiService.ts:336 | no verdict is found exactly when no verdict pattern occurs from the start position on |
| Gemini.FindVerdictLeftmost | services/geminiService.ts:336 | the verdict found is the one at the leftmost match |
| Gemini.ParseVerdict | services/geminiService.ts:336-340 | with no verdict pattern in the text the verdict is Unknown |
| Gemini.ParseSummary | services/geminiService.ts:337-341 | the summary is the trimmed text between the first "Summary: " and the first "Threats Found:" after it; without either heading it is the fixed fallback |
| Gemini.ParseThreats | services/geminiService.ts:338-342 | without a "Threats Found: " heading there are no threats; otherwise the rest of that line, trimmed, gives no threats when it reads "none" in any case, and else its comma-separated pieces, each trimmed (at least one) |
| Gemini.SourceOf | services/geminiService.ts:345-349 | a source always has a title, "Untitled Source" when the chunk gives none |
| Gemini.Sources | services/geminiService.ts:344-350 | only chunks with a URI become sources, so every source has a URI and a title |
| Gemini.SourcesAppend | services/geminiService.ts:344-350 | the sources of two chunk lists are the sources of each, in order |
| Gemini.ThreatsLine | services/geminiService.ts:342 | a formatted threat list is one trimmed line that reads "none" exactly when the list is empty |
| Gemini.SplitTrimmed | services/geminiService.ts:342 | splitting a comma-joined list and trimming the pieces gives back the list |
| Gemini.ParseVerdictOfFormat | services/geminiService.ts:336-340 | the verdict written in the reply format is the verdict parsed |
| Gemini.ParseSummaryOfFormat | services/geminiService.ts:337-341 | the summary written in the reply format is the summary parsed |
| Gemini.ParseThreatsOfFormat | services/geminiService.ts:338-342 | the threats written in the reply format are the threats parsed |
| Gemini.UrlReplyRoundTrip | services/geminiService.ts:334-357 | a reply in the requested format parses back to the verdict, summary, threats and sources it was written from |
| Gemini.AnalyzeUrl | services/geminiService.ts:304-363 | a missing key or a failed request throws its message; a reply gives the verdict, summary, threats and sources parsed from it |
| Gemini.PadOptions | services/geminiService.ts:395-400 | every question ends with exactly four options: the first four given, padded with "N/A" |
| Gemini.PadOptionsIdempotent | services/geminiService.ts:395-400 | normalising options twice equals normalising once |
| Gemini.NormalizedQuiz | services/geminiService.ts:394-401 | normalising a quiz keeps its questions and changes only their options, to exactly four |
| Gemini.NormalizeQuiz | services/geminiService.ts:394-401 | the in-place loop over the quiz array leaves it equal to `NormalizedQuiz` of the original |
| Gemini.GenerateLearningContent | services/geminiService.ts:365-412 | a missing key or a failed request throws its message; a reply yields its content and its normalised quiz |
| History.TrustInfo | pages/HistoryPage.tsx:19-23 | the label is trustworthy from 70, uncertain from 40 up to 70, suspicious below 40 |
| History.TrustInfoMonotone | pages/HistoryPage.tsx:19-23 | a higher score never gets a worse label |
| History.FileInfo | pages/HistoryPage.tsx:25-30 | each file type gets its own icon |
| History.FilteredScansSpec | pages/HistoryPage.tsx:37-42 | the list shows exactly the scans of the chosen type whose lower-cased summary contains the lower-cased search term, in their order |
| History.FilteredScansCount | pages/HistoryPage.tsx:37-42 | a shown scan appears as often as it does in the history, and a hidden one not at all |
| History.FilteredScansIdempotent | pages/HistoryPage.tsx:37-42 | filtering an already filtered list changes nothing |
| History.InitialSettingsShowAll | pages/HistoryPage.tsx:33-42 | with the initial empty search and "all" types every scan is shown |
| History.FilterByTypeOnly | pages/HistoryPage.tsx:39 | with an empty search, choosing a type shows exactly the scans of that type |
| Scanner.FileKind | pages/ScannerPage.tsx:180 | "image/" types are images, otherwise "video/" types are videos, and everything else is audio |
| Scanner.Capitalized | pages/ScannerPage.tsx:189 | capitalising upper-cases a lower-case first letter and keeps every other character |
| Scanner.CapitalizedAudio | pages/ScannerPage.tsx:189-190 | the placeholder texts name "Audio" |
| Scanner.AudioStubContents | pages/ScannerPage.tsx:182-192 | an audio scan yields a zero score, no verdict, the development summary and the coming-soon artifact |
| Scanner.ErrorText | pages/ScannerPage.tsx:225 | the shown error is the thrown message, or the generic one when the message is empty |
| Scanner.AudioIgnoresService | pages/ScannerPage.tsx:180-193 | audio files never reach the file reader or the analysis service |
| Scanner.MediaOutcome | pages/ScannerPage.tsx:194-219 | images and videos give the configuration error, the type's own failure message, or a result carrying the analysis and the file type |
| Scanner.UnreadableMedia | pages/ScannerPage.tsx:195-225 | a file that cannot be read fails with the reader's message |
| Scanner.GeneralTrustInfo | pages/ScannerPage.tsx:78-82 | the score-based verdict is authentic from 70, manipulated from 40 up to 70, AI-generated below 40 |
| Scanner.ShownVerdict | pages/ScannerPage.tsx:69-84 | images and videos with a verdict show it; everything else shows the score-based verdict |
| Scanner.HighConfidenceOnlyDetailed | pages/ScannerPage.tsx:69-84 | "High Confidence" is shown only for an image or video whose analysis said so |
| Scanner.AudioStubShown | pages/ScannerPage.tsx:182-190 | the audio placeholder is shown as "Likely AI-Generated", because its score is 0 |
| Scanner.ScannerPage.constructor | pages/ScannerPage.tsx:160-164 | the page starts with no file, no result, not scanning and no error |
| Scanner.ScannerPage.HandleFileSelect | pages/ScannerPage.tsx:166-170 | choosing a file clears the result and the error |
| Scanner.ScannerPage.HandleScan | pages/ScannerPage.tsx:172-229 | without a file nothing happens; otherwise scanning ends, and the page shows the outcome's result or its error text |
| Scanner.ScannerPage.ResetScan | pages/ScannerPage.tsx:230-234 | reset clears the file, the result and the error |
| News.VerdictInfo | pages/NewsVerificationPage.tsx:13-17 | the title is factual from 70, misleading from 40 up to 70, potentially false below 40 |
| News.TitleIgnoresVerdict | pages/NewsVerificationPage.tsx:19 | the title depends only on the credibility score, not on the model's verdict |
| News.NewsPage.constructor | pages/NewsVerificationPage.tsx:92-96 | the page starts empty, not checking, without result or error |
| News.NewsPage.SetQuery | pages/NewsVerificationPage.tsx:93 | typing changes only the query |
| News.NewsPage.HandleCheck | pages/NewsVerificationPage.tsx:98-113 | a blank query does nothing; otherwise checking ends with the result, or with no result and the page's own failure message |
| News.NewsPage.Reset | pages/NewsVerificationPage.tsx:115-119 | reset clears the query, the result and the error |
| News.CheckOutcomes | pages/NewsVerificationPage.tsx:98-113 | an illustration on one query: without a key the page shows its failure message; with a key and a reply it shows the reply |
| UrlScan.ValidUrlIff | pages/UrlScanPage.tsx:86-95 | the recogniser accepts exactly the strings the validation pattern matches |
| UrlScan.MatchOfAccepted | pages/UrlScanPage.tsx:86-95 | every accepted string has a decomposition into scheme, host, port, path, query and fragment |
| UrlScan.AcceptsMatch | pages/UrlScanPage.tsx:86-95 | every decomposition the pattern allows is accepted |
| UrlScan.DotlessRejected | pages/UrlScanPage.tsx:89-90 | a string without a dot is never a valid URL |
| UrlScan.NormalizeSpec | pages/UrlScanPage.tsx:98-103 | a blank entry is ignored; otherwise the URL starts with a scheme, ends with the trimmed entry and grows by at most "https://" |
| UrlScan.NormalizeIdempotent | pages/UrlScanPage.tsx:98-103 | normalising an already normalised URL changes nothing |
| UrlScan.UpperSchemeRejected | pages/UrlScanPage.tsx:98-108 | an entry whose scheme is not in lower case gets a second scheme prepended and is then rejected |
| UrlScan.PrefixedRejected | pages/UrlScanPage.tsx:101-108 | any entry that starts with a scheme other than a lower-case "http" or "https" gets "https://" prepended and is then rejected |
| UrlScan.VerdictTitle | pages/UrlScanPage.tsx:12-17 | "URL Appears Safe" is shown exactly for the Safe verdict |
| UrlScan.VerdictTitleInjective | pages/UrlScanPage.tsx:12-17 | different verdicts show different titles |
| UrlScan.UrlScanPage.constructor | pages/UrlScanPage.tsx:80-84 | the page starts empty, not scanning, without result or error |
| UrlScan.UrlScanPage.SetUrl | pages/UrlScanPage.tsx:81 | typing changes only the URL |
| UrlScan.UrlScanPage.HandleScan | pages/UrlScanPage.tsx:97-123 | a blank entry does nothing; an invalid URL sets the validation message; a valid one is analysed, showing the result and the full URL, or the scan failure message |
| UrlScan.UrlScanPage.Submit | pages/UrlScanPage.tsx:110-122 | after the request, scanning ends with the result and the full URL, or with no result and the failure message |
| UrlScan.UrlScanPage.Reset | pages/UrlScanPage.tsx:125-129 | reset clears the URL, the result and the error |
| Learning.PathShape | pages/LearningPage.tsx:13-21 | the path has seven modules with distinct ids, and exactly the lessons carry a points reward |
| Learning.EnrichedSpec | pages/LearningPage.tsx:132-138 | merging the cache keeps every module in place, changes only content and quiz, and takes each from the cache entry where it has one |
| Learning.EnrichedIdempotent | pages/LearningPage.tsx:132-138 | merging the same cache twice changes nothing more |
| Learning.CachedLessonShown | pages/LearningPage.tsx:132-151 | once a lesson is cached its module shows that content and quiz, so starting it again needs no generation |
| Learning.CacheOtherUnchanged | pages/LearningPage.tsx:132-138 | caching one module leaves every other module as it was |
| Learning.FirstIncompleteFromSpec | pages/LearningPage.tsx:187 | the search from a position returns -1 exactly when every module is completed, otherwise the first incomplete one |
| Learning.FirstIncompleteSpec | pages/LearningPage.tsx:187 | `findIndex` returns -1 exactly when every module is completed, otherwise the first incomplete index |
| Learning.LockedIff | pages/LearningPage.tsx:212 | a node is locked exactly when an earlier module is incomplete |
| Learning.NoPlainNode | pages/LearningPage.tsx:209-220 | every node is completed, next or locked, and it is next exactly at the first incomplete index |
| Learning.CorrectCountBound | pages/LearningPage.tsx:51-58 | the score never exceeds the number of answers |
| Learning.AllCorrect | pages/LearningPage.tsx:51-58 | answering every question correctly scores one point per answer |
| Learning.CorrectCountSnoc | pages/LearningPage.tsx:51-58 | each answer adds one point exactly when it is the correct one |
| Learning.CountPrefix | pages/LearningPage.tsx:49-58 | the score only looks at the questions answered so far |
| Learning.Quiz.constructor | pages/LearningPage.tsx:43-49 | a quiz starts at the first question, with no answer and a zero score |
| Learning.Quiz.HandleAnswer | pages/LearningPage.tsx:51-58 | the first pick records the answer and whether it is correct and adds a point when it is; later picks are disabled |
| Learning.Quiz.HandleNext | pages/LearningPage.tsx:60-68 | without a shown answer nothing happens; otherwise the answer is cleared and the quiz moves on, or finishes with its score, which is at most the number of questions |
| Learning.LearningPage.constructor | pages/LearningPage.tsx:124-138 | the page shows the path merged with the cache and no modal |
| Learning.LearningPage.Refresh | pages/LearningPage.tsx:132-138 | re-merging the path with the current cache touches nothing else; the caller runs it after a cache change, where React runs the effect itself |
| Learning.LearningPage.HandleNodeClick | pages/LearningPage.tsx:140-143 | a locked node does nothing; any other opens its details |
| Learning.LearningPage.StartModule | pages/LearningPage.tsx:145-171 | only a lesson in the details view starts; a cached lesson opens directly; otherwise the lesson is generated, cached and the cache saved, or the details view shows the error and storage is untouched |
| Learning.LearningPage.Generate | pages/LearningPage.tsx:152-170 | a generated lesson is cached under the module id, the cache saved, and the lesson shown; a failure returns to the details with the message and leaves storage alone |
| Learning.LearningPage.StartQuiz | pages/LearningPage.tsx:285 | the quiz opens from the lesson view only |
| Learning.LearningPage.HandleQuizComplete | pages/LearningPage.tsx:173-179 | the score is recorded and the results view opens; a new module is completed with its reward or 0 and the user and completed set are saved; an already completed one changes nothing in the store or storage |
| Learning.LearningPage.CloseModal | pages/LearningPage.tsx:181-185 | closing clears the selection, the view and the error |
| Markdown.ReplaceSectionsFromSpec | utils/helpers.ts:21-23 | after the section-marker replacement no "###" is left in the text |
| Markdown.SplitNoHashes | utils/helpers.ts:26 | splitting a text without "###" gives pieces without "###" |
| Markdown.BlocksSpec | utils/helpers.ts:25-28 | every block is non-empty, already trimmed and free of "###" |
| Markdown.NoHashHeadings | utils/helpers.ts:21-33 | no block ever takes the "### " heading rule |
| Markdown.NoHashHeading | utils/helpers.ts:33 | a block without "###" never takes the "### " heading rule |
| Markdown.HeadingsFirst | utils/helpers.ts:31-32 | a block starting "# " or "## " becomes a heading of the rest, before any list or title rule |
| Markdown.ListSpec | utils/helpers.ts:36-38 | a list has one item per line, in order, each with its marker removed and trimmed |
| Markdown.WordCountSpec | utils/helpers.ts:43-44 | the word count is always positive, and one for a block without white space |
| Markdown.TitleRule | utils/helpers.ts:41-53 | a block that is neither heading nor list is a title exactly when it has under ten words and ends with '?' or '!', and a paragraph otherwise |
| Markdown.ParagraphSpec | utils/helpers.ts:51-53 | a paragraph is wrapped in `<p>` and keeps no raw newline |
| Markdown.ReplaceNewlines | utils/helpers.ts:53 | every newline becomes `<br/>` |
| Markdown.CloseFrom | utils/helpers.ts:57-58 | the lazy emphasis capture closes at an occurrence of the marker |
| Markdown.WrapAbsent | utils/helpers.ts:57-58 | a text without the marker's first character passes one emphasis replacement unchanged |
| Markdown.EmphasisAbsent | utils/helpers.ts:57-58 | text without '*' passes the emphasis rewriting unchanged |
| Markdown.CloseAfterPlain | utils/helpers.ts:57-58 | the lazy capture closes at the first marker when the text before it holds no marker character and no line break |
| Markdown.BoldWrap | utils/helpers.ts:57-58 | `**t**`, for any one-line `t` without '*', becomes `<strong>t</strong>` and the italic pass leaves it alone |
| Markdown.EmptyRendersEmpty | utils/helpers.ts:18-28 | empty or absent content renders as the empty string |

## Left out

- The network, the language model and its prompts: each call's answer is a parameter (`Reply`), and a reply is assumed to have the shape the response schema demands.
- `JSON.parse` of the model's own replies (services/geminiService.ts:204-205, 251-252, 294-295, 390-391): the reply is given as a typed record.
- The clock: `Date.now`, ISO dates, scan ids and `processing_time` (a floating-point duration) are parameters or absent.
- The file reader, `fileToBase64` (utils/helpers.ts:2-16) and `URL.createObjectURL`: the read is a `Result` parameter and the object URL a field of the picked file.
- The DOM: class names, `lang`/`dir` attributes, icons, colours, animations and the 300 ms debounce timer of the password page.
- `window.matchMedia`: the system preference is a boolean parameter.
- The zxcvbn estimator: its answer (or its throw) is the `EstimatorOutcome` parameter.
- Floating point: trust and credibility scores are `real`; points and levels are `int`.
- `toLowerCase` is modelled on ASCII letters only; other scripts keep their case.
- JSON numbers are modelled as integers, the only numbers the application stores; fractions and exponents are not parsed.
- Characters outside the Basic Multilingual Plane are single characters; only `Utf16Length` counts surrogate pairs.
- React scheduling: state updates take effect at once and in order, so two clicks inside one render are not modelled.
- History.FileInfo: the grey fallback for an unknown file type cannot happen, because the type is a closed datatype.
- Learning.LearningPage.Generate: the extra `module_type` and `points_reward` the page passes to the cache are not stored; they equal the module's own fields, so merging them changes nothing.
- Learning.Quiz.constructor: a module whose quiz is empty would crash the quiz view; the model requires a non-empty quiz.
- Learning.Quiz.HandleNext: an empty-string answer hides the Next button, so nothing happens; the model follows that.
- The history page's mock scans are a parameter, not the four fixed records.
- Gemini.UrlReplyRoundTrip: it holds for replies in the requested layout only; for any other text the contracts of `ParseVerdict`, `ParseSummary` and `ParseThreats` state what is read, by the positions of the headings.
- LoadUser, LoadStats (Progress): a stored value that parses but is not a user or statistics record (`null`, a number, an object missing fields) loads the initial record in the model; the hook keeps the parsed value as it is, and for the user `completeModule` then throws on `null` (`prevUser.total_points`).
- LoadCompleted (Progress): a stored value that parses but is not an array of strings loads `[]` in the model; the hook passes it to `new Set(...)`, which throws outside the `try` for a number or a plain object, gives the empty set for `null` and the set of its characters for a string.
- LoadCache (Progress): a stored value that parses but is not an object of lessons loads an empty cache in the model; the hook keeps it, and `null` makes the lookup at pages/LearningPage.tsx:134 throw.
- Find (Theme): the translation walk looks at the catalog's own keys only; the source's `result?.[k]` also reads properties of strings (`length`) and inherited members (`constructor`), which the model treats as missing keys, so `Walk`, `Translate` and `LanguageProvider.T` inherit the gap for such keys.
- Parse, DecodeEscape (Json): a `\u` escape naming a surrogate code unit is refused, where `JSON.parse` accepts it (a pair makes one character outside the Basic Multilingual Plane); `JSON.stringify` writes no such escape for the strings the store holds, so reading back saved data is unaffected.
- PutFresh (Collections): JavaScript lists integer-like keys first, in numeric order; the model appends every new key, which matches the source for the module ids it uses.
- SetLanguage (Theme): the model writes the language to storage on every call; the source's effect runs only when the language actually changes, so choosing the current language again writes nothing there.
