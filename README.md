# CATI survey: a verified model of its core logic

The system is a web application for telephone interviews (CATI) with company
administrators. An operator signs in and pastes a company profile copied from
Targetare.ro, which the application parses into a company record. The operator
then asks a questionnaire and saves the answers, or records why the call ended
early. A live panel aggregates the stored answers per operator. A second,
eleven-question form lets the operator pick motives for questions 4 and 9 and
add custom ones. A door-to-door research page counts the operators' votes for
options in three categories. A server route cleans a CUI (the company's tax
code) and reads the locality and the county out of a registry address.

This project models that logic in Dafny, one module per source file:

- `CuiLookup`: the profile parser, with its regular expressions written out as
  explicit matchers that follow JavaScript's backtracking order.
- `LiveViewer`: the panel's aggregations and rates.
- `SurveyDashboard`: phone formatting and the rows written when a call ends early.
- `LookupCuiRoute`: the route's pure helpers.
- `Validation` and `ValidationV2`: the two form schemas.
- `SurveyFormV2`: motive selection, custom motives and the "Altul" answer.
- `MobileResearch`: vote counting and option grouping.
- `Auth`: sign-in, as a class whose `user` field changes.

Shared modules provide the pieces these rely on:

- `Text`: white space, trimming, lower-casing, splitting, digits, `String` and `parseInt`.
- `Patterns`: leftmost regular-expression search.
- `Seqs`: `filter` and `find`.
- `Tallies`: counting keys in first-seen order.
- `Labels`: finding an option by its label.
- `Records`: the company record and the stored row.
- `Optional`.

The loops that build counters are methods proved against specification
functions: `AggregateByField`, `AggregateScore1to5` and `CountVotes`. The rest
of the core computes values and is modelled as functions and lemmas.

## Model

| member | source | states |
|---|---|---|
| CuiLookup.CuiAt | components/cui-lookup.tsx:14 | a match of `CUI\s*(\d+)` captures a non-empty run of digits |
| CuiLookup.ExtractCui | components/cui-lookup.tsx:14-15 | the CUI is the digits captured by the leftmost match, all digits, and empty exactly when the pattern matches at no position |
| CuiLookup.ExtractCuiOfLabel | components/cui-lookup.tsx:14-15 | wherever the first "CUI" in any letter case stands, followed by white space and a number that a non-digit or the end closes, that number is the CUI |
| CuiLookup.ExtractCuiOfLabelledNumber | components/cui-lookup.tsx:14-15 | a text opening with "CUI ", a number and a non-digit yields exactly that number |
| CuiLookup.BodyThenSuffix | components/cui-lookup.tsx:18 | one name branch ends at the last occurrence of its suffix within the character run, and fails when the run holds none |
| CuiLookup.NameAfterSpaces | components/cui-lookup.tsx:18 | a name captured after `Targetare.ro\s+` contains a character that is not white space |
| CuiLookup.SuffixedName | components/cui-lookup.tsx:18 | a name captured by the SRL or the SA branch contains a non-space character |
| CuiLookup.SuffixEndsInLetter | components/cui-lookup.tsx:18 | a capture that ends with the suffix SRL or SA ends with a letter, not white space |
| CuiLookup.NameAt | components/cui-lookup.tsx:18 | a name match contains a character that is not white space |
| CuiLookup.ExtractName | components/cui-lookup.tsx:18-19 | the name is the trimmed capture of the leftmost match, and empty exactly when the pattern matches at no position |
| CuiLookup.ExtractNameOfSuffixed | components/cui-lookup.tsx:18-19 | "Targetare.ro ", a name ending in "SRL" and a character outside the name class give that name with its suffix: the greedy run gives back exactly the three letters |
| CuiLookup.CaenAt | components/cui-lookup.tsx:22 | a match of `CAEN\s*(\d+)\s*-` captures a non-empty run of digits |
| CuiLookup.ExtractCodCaen | components/cui-lookup.tsx:22-23 | the CAEN code is the digits captured by the leftmost match, all digits, and empty exactly when the pattern matches nowhere |
| CuiLookup.ExtractCodCaenOfLabelled | components/cui-lookup.tsx:22-23 | a text opening with "CAEN ", a code and " - " yields that code |
| CuiLookup.LooksLikePhoneIsPrefixTest | components/cui-lookup.tsx:26 | `looksLikePhone` holds exactly when the trimmed text starts with `+` and a digit; its second test never rejects |
| CuiLookup.LooksLikePhone | components/cui-lookup.tsx:26 | definition of `looksLikePhone` with both of its tests; `CuiLookup.LooksLikePhoneIsPrefixTest` states what it accepts |
| CuiLookup.PhoneSentenceAt | components/cui-lookup.tsx:28 | a phone after "este" has at least three characters and starts with `+` and a digit |
| CuiLookup.LastNonNewline | components/cui-lookup.tsx:33 | finds the last position before the bound that is not a newline, or proves there is none |
| CuiLookup.LineAfterBreak | components/cui-lookup.tsx:33 | the line captured after a line break is non-empty and holds no newline |
| CuiLookup.TelefonLineAt | components/cui-lookup.tsx:32-33 | a match stands on the label "Telefon" and captures a non-empty line without a newline |
| CuiLookup.ContactPhoneAt | components/cui-lookup.tsx:42 | a contact phone has at least eleven characters and starts with `+` and two digits |
| CuiLookup.ContactAt | components/cui-lookup.tsx:42-45 | a phone found in the contact section starts with `+` and two digits and has at least eleven characters |
| CuiLookup.TrimOpensInternational | components/cui-lookup.tsx:30 | trimming a capture that starts with `+` and a digit keeps that start |
| CuiLookup.ExtractTelefon | components/cui-lookup.tsx:25-46 | the sources are tried in order: the trimmed leftmost "este" phone; when that pattern matches nowhere, the trimmed leftmost "Telefon" line if it looks like a phone; when neither gives a phone, the trimmed leftmost contact phone, or "" when there is none. Any phone found starts with `+` and a digit |
| CuiLookup.TelefonLineOpensInternational | components/cui-lookup.tsx:32-40 | the line after "Telefon" is only taken when it starts with `+` and a digit |
| CuiLookup.AdministratorAt | components/cui-lookup.tsx:50 | the administrator capture is non-empty and holds no newline |
| CuiLookup.ExtractAdministrator | components/cui-lookup.tsx:49-53 | the administrator is the trimmed capture of the leftmost match, a single line, and it is empty when the pattern matches nowhere |
| CuiLookup.AddressAt | components/cui-lookup.tsx:56 | a match stands on the label "Adresa" followed by white space, and its capture is non-empty |
| CuiLookup.AddressAtFirstTerminator | components/cui-lookup.tsx:56 | the lazy capture starts after the white space and ends at the first "Top firme" or "Administrator" after its first character |
| CuiLookup.AddressAtGivesBack | components/cui-lookup.tsx:56 | with no terminator after that first character, the match exists exactly when the white space has two characters or more and a terminator follows it directly; the capture is then the last white-space character |
| CuiLookup.ExtractAdresa | components/cui-lookup.tsx:55-62 | the address block is the trimmed capture of the leftmost match, and absent exactly when the pattern matches nowhere |
| CuiLookup.SectorAt | components/cui-lookup.tsx:65 | a sector match captures a non-empty run of digits |
| CuiLookup.CountyNameAt | components/cui-lookup.tsx:65 | a county name captured after "Judet" or "Jud." holds neither a comma nor a newline |
| CuiLookup.CountyAt | components/cui-lookup.tsx:65 | the three branches are tried in order; a sector is digits and a county name has no comma or newline |
| CuiLookup.CountyText | components/cui-lookup.tsx:67-70 | a sector is written "Sector " and its trimmed digits, a county its trimmed name; neither holds a comma or a newline |
| CuiLookup.ParseJudet | components/cui-lookup.tsx:64-71 | the county is the written form of the leftmost match, whichever of the three labels it is, or "" when no label matches; it holds no comma and no newline |
| CuiLookup.ParseJudetOfSector | components/cui-lookup.tsx:64-71 | an address opening with "Sector ", a number and a non-digit gives "Sector " and that number |
| CuiLookup.ParseJudetOfCounty | components/cui-lookup.tsx:64-71 | an address opening with "Judet ", a name and a comma gives the trimmed name |
| CuiLookup.ParseJudetOfJud | components/cui-lookup.tsx:64-71 | an address opening with "Jud. ", a name and a comma gives the trimmed name, once "Sector" and "Judet" fail there |
| CuiLookup.PartAfterSpaces | components/cui-lookup.tsx:74 | the part captured by `\s+([^,]+)` holds no comma |
| CuiLookup.PlaceAt | components/cui-lookup.tsx:74 | a locality after Municipiul, Orasul or Comuna holds no comma |
| CuiLookup.WordAfterSpaces | components/cui-lookup.tsx:79 | the word captured after white space is non-empty, has no space or comma, and ends inside the text |
| CuiLookup.LabelledWordAt | components/cui-lookup.tsx:88 | the word after "Ors.", "Com." or "Sat" is non-empty and has no space or comma |
| CuiLookup.VillagePairAt | components/cui-lookup.tsx:79-85 | the village and its town or commune are both non-empty words without space or comma |
| CuiLookup.ParseLocalitate | components/cui-lookup.tsx:74-104 | each alternative is used only when every earlier one matches nowhere, and gives its trimmed leftmost capture: Municipiul/Orasul/Comuna X; "X, Y" for Sat X Ors. Y, then for Sat X Com. Y; Ors. Y; Com. Y; Sat X; "" when none matches |
| CuiLookup.ParseLocalitateOfPlace | components/cui-lookup.tsx:74-77 | an address opening with "Municipiul ", a name and a comma gives the trimmed name |
| CuiLookup.ParseLocalitateOfVillageOrs | components/cui-lookup.tsx:78-82 | "Sat X Ors. Y" for words X and Y, where no Municipiul, Orasul or Comuna matches, gives "X, Y" |
| CuiLookup.ParseLocalitateExample | components/cui-lookup.tsx:78-82 | the address "Sat Varteju Ors. Magurele" gives "Varteju, Magurele" |
| CuiLookup.ParseTargetareText | components/cui-lookup.tsx:11-125 | no record exactly when the CUI or the name is missing; otherwise the CUI is digits, the name is non-empty, locality, county and CAEN code are never empty ("N/A"), empty phone or administrator become absent, and a phone starts with `+` and a digit |
| CuiLookup.ParseTargetareFields | components/cui-lookup.tsx:107-120 | each field of the record is its extractor's result: the CUI, the name and the address text as extracted; the CAEN code or "N/A"; the phone and the administrator when non-empty, else absent; locality and county parsed from the address block, or "N/A" when empty or when there is no block |
| CuiLookup.NoAddressBlock | components/cui-lookup.tsx:56-62 | without an address block the address is empty and locality and county are "N/A" |
| CuiLookup.HandleTextChange | components/cui-lookup.tsx:133-150 | text of at most 100 characters clears the record and the error; longer text is parsed, and the error shows exactly when parsing fails |
| Patterns.FindFirst | components/cui-lookup.tsx:14 | the first start position at or after `from` where the pattern matches, with no earlier match; none when it matches nowhere |
| Patterns.Search | components/cui-lookup.tsx:14 | `text.match` returns the captures of the leftmost match, or nothing when no position matches |
| Patterns.SearchAtStart | components/cui-lookup.tsx:14 | a pattern that matches at position 0 gives that match |
| Text.Lower | lib/auth-context.tsx:26 | lower-casing keeps the length and lower-cases each character |
| Text.LowerIsLower | lib/auth-context.tsx:26 | every character of a lower-cased string is already lower case |
| Text.Trim | components/cui-lookup.tsx:19 | the result has no white space at either end, is empty exactly when the text is all white space, and takes its characters from the text |
| Text.TrimOfTrimmed | components/cui-lookup.tsx:19 | trimming is the identity on a string without white space at its ends |
| Text.TrimKeepsHead | components/cui-lookup.tsx:19 | trimming keeps a non-space head of the string in place |
| Text.Split | app/api/lookup-cui/route.ts:87 | splitting gives at least one part, and no part holds the separator |
| Text.SplitJoin | app/api/lookup-cui/route.ts:87 | joining the parts with the separator gives back the string |
| Text.KeepDigits | app/api/lookup-cui/route.ts:15 | removing `\D` leaves only digits |
| Text.KeepDigitsOfDigits | app/api/lookup-cui/route.ts:15 | a string of digits is kept whole |
| Text.RemoveSpaces | components/survey-dashboard.tsx:7 | removing `\s` leaves no white space |
| Text.RemoveSpacesAppend | components/survey-dashboard.tsx:7 | removing white space distributes over concatenation |
| Text.RemoveSpacesOfDigits | components/survey-dashboard.tsx:7 | a string of digits has no white space to remove |
| Text.NatToString | components/live-viewer.tsx:50 | `String(n)` is a non-empty string of digits |
| Text.DigitsValueOfNatToString | components/live-viewer.tsx:50 | `String(n)` reads back as n |
| Text.ParseIntOfIntToString | components/live-viewer.tsx:42 | `parseInt(String(i), 10)` is i for every integer, so a score stored as text is read as its number |
| Text.ParseInt | components/live-viewer.tsx:42 | definition of `parseInt(s, 10)`: leading white space, an optional sign, then the longest run of digits, or nothing; `Text.ParseIntOfIntToString` states the round trip |
| Seqs.Filter | components/live-viewer.tsx:55 | `filter` keeps exactly the elements that pass, and is never longer than its input; `Seqs.FilterCounts` states that each passing element is kept as often as it occurs |
| Seqs.FilterIsSubsequence | components/survey-form-v2.tsx:55 | `filter` keeps the original order |
| Seqs.FilterCounts | components/survey-form-v2.tsx:100 | `filter` keeps every element that passes as often as it occurs, and no other element |
| Seqs.Find | components/survey-form-v2.tsx:133 | `find` returns the first element that passes, or nothing when none does |
| Tallies.FirstSeen | components/live-viewer.tsx:32 | the keys without repeats, in first-seen order, and exactly the keys that occur |
| Tallies.Tally | components/live-viewer.tsx:32 | definition of the `{ name, value }` entries; `Tallies.TallyEntries` and `Tallies.TallyTotal` state what they hold |
| Tallies.CountKey | components/live-viewer.tsx:29 | `counts[key] = (counts[key] \|\| 0) + 1` keeps the counters equal to the occurrences seen so far, with a new key added last |
| Tallies.TallyTotal | components/live-viewer.tsx:24-32 | the counts of the entries add up to the number of keys counted |
| Tallies.TallyEntries | components/live-viewer.tsx:32 | each key that occurs is listed once, with its number of occurrences, and nothing else is listed |
| Labels.NormalizeLabel | components/survey-form-v2.tsx:134 | a normalized label has no white space at its ends and is lower case |
| Labels.NormalizeLabelIdempotent | components/survey-form-v2.tsx:134 | normalizing twice is normalizing once |
| Labels.FindByLabel | components/survey-form-v2.tsx:133-135 | finds the first stored option whose normalized label equals the wanted one, or none when no option matches or the options could not be read |
| Labels.FindByLabelFindsStored | components/survey-form-v2.tsx:133-135 | a label that differs from a stored one only in case or surrounding white space is found |
| Records.FieldValue | components/live-viewer.tsx:26 | `row[field]` is never an array |
| Records.NonEmptyOrNone | components/survey-dashboard.tsx:44 | `value \|\| null` never gives an empty string, keeps a non-empty value and turns an empty one into null |
| LiveViewer.ValueKey | components/live-viewer.tsx:26-28 | a cell gives a key exactly when it is not undefined, null or empty, and that key is never empty |
| LiveViewer.ColumnOf | components/live-viewer.tsx:22 | the column of a field reads `row[field]` from every row |
| LiveViewer.ColumnOfIsScalar | components/live-viewer.tsx:22 | no column of a row holds an array |
| LiveViewer.RowKeys | components/live-viewer.tsx:25-28 | one optional key per row |
| LiveViewer.Present | components/live-viewer.tsx:27 | the keys that are present, never more than the rows |
| LiveViewer.FieldKeys | components/live-viewer.tsx:25-28 | the keys the rows contribute, at most one per row |
| LiveViewer.FieldKeysStep | components/live-viewer.tsx:25-30 | one more row appends its key, if it has one |
| LiveViewer.AggregateByField | components/live-viewer.tsx:20-33 | the one-pass loop returns each distinct key of the column once, in first-seen order, with its number of rows |
| LiveViewer.AggregateTotal | components/live-viewer.tsx:20-33 | the counts of a column's tally never exceed the number of rows |
| LiveViewer.InScoreRange | components/live-viewer.tsx:43 | a number is bucketed only from 0 to 5 |
| LiveViewer.ScoreBucket | components/live-viewer.tsx:38-46 | the "don't know" answer goes to bucket 0, a score from 0 to 5 to its own bucket, anything else nowhere |
| LiveViewer.ScoreBucketOfScore | components/live-viewer.tsx:42-44 | a score stored as a number or as its text goes to the same bucket, its own value when from 0 to 5 |
| LiveViewer.RowBuckets | components/live-viewer.tsx:37-47 | one optional bucket per row |
| LiveViewer.BucketCountSnoc | components/live-viewer.tsx:37-47 | one more row adds one to its own bucket and nothing to the others |
| LiveViewer.CountScore | components/live-viewer.tsx:38-46 | one step of the loop keeps the six counters equal to the bucket counts of the rows seen so far |
| LiveViewer.AggregateScore1to5 | components/live-viewer.tsx:35-52 | six entries labelled "Nu știu", "1" to "5", each with the number of rows in that bucket |
| LiveViewer.BucketsTotal | components/live-viewer.tsx:35-52 | the six counts add up to the number of rows with a usable score |
| LiveViewer.CoveredAdd | components/live-viewer.tsx:37-47 | one more row with a bucket from 0 to 5, or with none, is counted exactly once |
| LiveViewer.BucketsCover | components/live-viewer.tsx:37-47 | every row falls in exactly one of the six buckets or in none |
| LiveViewer.AggregateDaNu | components/live-viewer.tsx:54-61 | "DA" counts the administrators, "NU" the others, and the two add up to all rows |
| LiveViewer.ByOperator | components/live-viewer.tsx:88 | definition of the operator test: the lower-cased operator is the chosen name |
| LiveViewer.FilterByOperator | components/live-viewer.tsx:87-88 | "all" keeps every row; otherwise exactly the rows whose lower-cased operator is the chosen one, each as often as it occurs, in their order |
| LiveViewer.IsCompleted | components/live-viewer.tsx:90 | definition of a completed interview: no end reason, or a blank one; `LiveViewer.DaNuRowsExtendValid` and `LiveViewer.ComputeLiveStats` state how it is used |
| LiveViewer.CountsForDaNu | components/live-viewer.tsx:94-100 | definition of the rows question 1 counts: completed, or ended with the administrator absent or the call abandoned; `LiveViewer.DaNuRowsExtendValid` states what it adds |
| LiveViewer.DaNuRowsExtendValid | components/live-viewer.tsx:90-100 | question 1 is counted over the completed interviews plus exactly the "administrator absent" and "abandoned" rows, in order |
| LiveViewer.RoundedTenths | components/live-viewer.tsx:113-115 | rounding to tenths lands within half a tenth of the exact percentage, and a share is at most 100.0 |
| LiveViewer.RateTenths | components/live-viewer.tsx:113-115 | the rounded percentage in tenths is within half a tenth of `100 * k / total`, and at most 1000 for a share of the rows |
| LiveViewer.Rate | components/live-viewer.tsx:113-115 | with no rows the rate is "0" |
| LiveViewer.RateReadsBack | components/live-viewer.tsx:113-115 | a printed rate is digits, a point and one digit, and it reads back as the rounded number of tenths |
| LiveViewer.ComputeLiveStats | components/live-viewer.tsx:87-115 | for one operator choice: the totals, the completed interviews, the unanswered and refused calls, the question tallies over completed interviews, question 1 over its wider rows, and the three rates; the three kinds of row never add up to more than the total |
| SurveyDashboard.DropCountryCode | components/survey-dashboard.tsx:9 | removing `^\+40\|^0040` takes off exactly the prefix the number has, `+40` first |
| SurveyDashboard.Grouped | components/survey-dashboard.tsx:11 | nine digits regrouped take fifteen characters |
| SurveyDashboard.FormatRomanianPhone | components/survey-dashboard.tsx:5-12 | no number gives a dash; a number without a Romanian country code, or without exactly nine national digits, is shown as it is |
| SurveyDashboard.FormatRomanianPhoneShape | components/survey-dashboard.tsx:9-11 | a regrouped number is "+4 0" followed by the nine national digits in order, in groups of three separated by single spaces |
| SurveyDashboard.RemoveSpacesOfGrouped | components/survey-dashboard.tsx:7-11 | removing the spaces of a regrouped number gives "+40" and the nine digits |
| SurveyDashboard.NineDigitGroups | components/survey-dashboard.tsx:11 | the three groups put back together give the nine digits |
| SurveyDashboard.RemoveSpacesAround | components/survey-dashboard.tsx:7 | removing spaces around separators that are all spaces joins the pieces |
| SurveyDashboard.RemoveSpacesOfCode | components/survey-dashboard.tsx:11 | the "+4 0" prefix without spaces is "+40" |
| SurveyDashboard.FormatRomanianPhoneIdempotent | components/survey-dashboard.tsx:5-12 | formatting the shown text again changes nothing |
| SurveyDashboard.NoPhoneShownAsIs | components/survey-dashboard.tsx:6 | the dash shown for a missing number is shown as it is |
| SurveyDashboard.GroupedShownAsIs | components/survey-dashboard.tsx:8-11 | a regrouped number is formatted to itself |
| SurveyDashboard.CompanyRow | components/survey-dashboard.tsx:129-147 | the row copies the company's fields, writes `null` for a missing or empty phone or administrator, and stores the operator and the end reason |
| SurveyDashboard.SurveyEndedRow | components/survey-dashboard.tsx:122-148 | a row is written exactly when an operator is signed in and a company is chosen; it has no answers, "NU" to question 1 and the given reason |
| SurveyDashboard.ScoreOrZero | components/survey-dashboard.tsx:92-94 | a missing score is written as 0 and a given one as it is |
| SurveyDashboard.SurveyAbandonedRow | components/survey-dashboard.tsx:79-101 | a row is written exactly when an operator and a company are present; it keeps the answers given, writes "N/A" or 0 for the rest, "DA" to question 1 and the "abandoned" reason |
| SurveyDashboard.EndedRowsInLiveStats | components/survey-dashboard.tsx:122-148 | a row for an ended call is never a completed interview; it counts as unanswered or refused exactly for those reasons, and enters question 1 (as NU) exactly when the administrator was absent |
| SurveyDashboard.AbandonedRowInLiveStats | components/survey-dashboard.tsx:79-101 | an abandoned call is not a completed interview, is neither unanswered nor refused, and counts as DA for question 1 |
| LookupCuiRoute.CleanCui | app/api/lookup-cui/route.ts:15 | the cleaned CUI is all digits, no longer than the input, and holds each digit of the input exactly as often as the input does, and nothing else |
| LookupCuiRoute.CleanCuiKeepsOrder | app/api/lookup-cui/route.ts:15 | the digits keep their order, and a CUI of digits is sent unchanged |
| LookupCuiRoute.FirstIndex | app/api/lookup-cui/route.ts:88-95 | the loop stops at the first part that passes the test; none passes when it runs to the end |
| LookupCuiRoute.TrimmedParts | app/api/lookup-cui/route.ts:87-89 | one trimmed part per comma-separated piece, none holding a comma |
| LookupCuiRoute.LocalityLabel | app/api/lookup-cui/route.ts:90-93 | the length of the "oras ", "municipiul " or "comuna " label the part starts with in any case, exactly when it does |
| LookupCuiRoute.ExtractLocalitate | app/api/lookup-cui/route.ts:86-97 | the first labelled part without its label, or else the first part; never with a comma |
| LookupCuiRoute.ExtractLocalitateOfEmpty | app/api/lookup-cui/route.ts:96 | an empty address has an empty locality |
| LookupCuiRoute.CountyLabel | app/api/lookup-cui/route.ts:103-105 | the length of the "judet " or "jud. " label the part starts with in any case, exactly when it does |
| LookupCuiRoute.ExtractJudet | app/api/lookup-cui/route.ts:99-109 | the first part labelled as a county without its label, or else the last part; never with a comma |
| LookupCuiRoute.SplitAtFirst | app/api/lookup-cui/route.ts:87 | splitting at the first separator gives the text before it as the first part |
| LookupCuiRoute.FirstPartIsLabelled | app/api/lookup-cui/route.ts:87-89 | the first trimmed part of an address that opens with a labelled name is that labelled name |
| LookupCuiRoute.LabelledLocality | app/api/lookup-cui/route.ts:90-93 | a part opening with "Municipiul " starts with "municipiul " once lower-cased |
| LookupCuiRoute.LabelledCounty | app/api/lookup-cui/route.ts:103-105 | a part opening with "Judet " starts with "judet " once lower-cased |
| LookupCuiRoute.ExtractLocalitateOfLabelled | app/api/lookup-cui/route.ts:86-97 | an address that opens with "Municipiul X," gives X |
| LookupCuiRoute.ExtractJudetOfLabelled | app/api/lookup-cui/route.ts:99-109 | an address that opens with "Judet X," gives X |
| Validation.Parse | lib/validation.ts:3-16 | a record exactly when every check of `surveySchema` passes; it then satisfies the schema and carries the object's values |
| Validation.SurveySchema | lib/validation.ts:3-16 | definition of `surveySchema`: the five company fields non-empty, a boolean question 1, the three text answers non-empty and the three scores from 0 to 5; `Validation.Parse` and `Validation.DefaultsRejected` state how it decides |
| Validation.ToObjFields | lib/validation.ts:3-16 | each key of the form's object holds the record's value |
| Validation.ParseOfRecord | lib/validation.ts:3-18 | a record is accepted exactly when it is valid, and then it comes back unchanged |
| Validation.FormDefaults | components/survey-form.tsx:27-40 | the form starts from the company's five fields |
| Validation.DefaultsRejected | components/survey-form.tsx:27-40 | the untouched form is always rejected, while the company fields pass when the company has them all |
| Validation.ParsedCompanyPasses | components/cui-lookup.tsx:107-120 | every company the paste parser produces passes the company checks |
| ValidationV2.SchemaIsEveryCheck | lib/validation-v2.ts:3-27 | `surveySchemaV2` accepts exactly when every field passes its own check |
| ValidationV2.SurveySchemaV2 | lib/validation-v2.ts:3-27 | definition of `surveySchemaV2`; `ValidationV2.SchemaIsEveryCheck` states that it is the conjunction of the field checks |
| ValidationV2.Check | lib/validation-v2.ts:3-27 | definition of each field's check: `min(1)` texts are non-empty, questions 4 and 9 are da, nu or nu_stiu, the score lies from 0 to 5, and the optional fields accept anything |
| ValidationV2.Listed | lib/validation-v2.ts:3-27 | every field is listed in the schema |
| ValidationV2.Issues | lib/validation-v2.ts:3-27 | the fields in error are exactly the listed fields whose check fails |
| ValidationV2.AcceptedIffNoIssues | lib/validation-v2.ts:3-27 | the record is accepted exactly when no field is in error |
| ValidationV2.CapabilScoreRange | lib/validation-v2.ts:16 | the question 5 score is accepted exactly from 0 to 5, so the form's -1 is rejected |
| ValidationV2.DefaultsV2Rejected | components/survey-form-v2.tsx:67-87 | the untouched form is rejected: every question from 2 to 11 fails, while the motive lists, the comment and question 1 pass |
| ValidationV2.FormDefaultsV2 | components/survey-form-v2.tsx:67-87 | definition of the values the form starts from; `ValidationV2.DefaultsV2Rejected` states that they are rejected, and why |
| SurveyFormV2.OptionsOf | components/survey-form-v2.tsx:55-56 | a question's options are exactly the loaded options of its category |
| SurveyFormV2.OptionsSplit | components/survey-form-v2.tsx:55-56 | both lists keep the loaded order, share no option and together are no longer than the loaded list |
| SurveyFormV2.Toggle | components/survey-form-v2.tsx:99-101 | the clicked id flips membership and no other id changes; an added id goes last; removing one drops every occurrence of it, keeps every other element as often as it occurred and in its order, and shortens the list |
| SurveyFormV2.FilterShrinks | components/survey-form-v2.tsx:100 | filtering out an id that occurs shortens the list |
| SurveyFormV2.ToggleTwice | components/survey-form-v2.tsx:99-101 | clicking an unselected motive twice gives the list back |
| SurveyFormV2.SetMotives | components/survey-form-v2.tsx:102 | `setValue` replaces that question's motive list and nothing else |
| SurveyFormV2.ToggleMotive | components/survey-form-v2.tsx:96-111 | the click flips that motive for its own question only; the other question's list and every other field are unchanged |
| SurveyFormV2.ToggleMotiveKeepsValidity | components/survey-form-v2.tsx:96-111 | selecting motives never changes whether the form is accepted |
| SurveyFormV2.Select | components/survey-form-v2.tsx:99-101 | the id ends up selected and no other id changes; an already selected list is unchanged |
| SurveyFormV2.AddOtherMotiveAsWritten | components/survey-form-v2.tsx:113-154 | a blank text changes nothing; an inserted option is toggled; on a duplicate, the stored option carrying the label is toggled by its id; a duplicate whose label no stored option carries ("could not find id") and any other insert error leave the form as it was |
| SurveyFormV2.AddSelectedMotiveUnselects | components/survey-form-v2.tsx:126-142 | adding again the label of a selected motive unselects it |
| SurveyFormV2.AddSelectedMotiveExample | components/survey-form-v2.tsx:126-142 | on a concrete form where motive 7 is the only option of question 4 and is selected, adding its label again leaves question 4 with no motive |
| SurveyFormV2.FoundAlone | components/survey-form-v2.tsx:133-136 | the only stored option is found by its own label |
| SurveyFormV2.AddOtherMotive | components/survey-form-v2.tsx:113-154 | a blank text changes nothing; an insert error, or a duplicate whose label no stored option carries, changes nothing; a new option is added to the selection; no selected motive is ever unselected |
| SurveyFormV2.AddOtherMotiveSelects | components/survey-form-v2.tsx:126-142 | an existing option found by its label ends up selected, and the result differs from the written code only when it was already selected |
| SurveyFormV2.Q6Input | components/survey-form-v2.tsx:417 | the answer starts with "Altul", is exactly "Altul" when the input is empty, and otherwise is "Altul: " followed by the typed text |
| SurveyFormV2.Q6InputInjective | components/survey-form-v2.tsx:417 | two typed texts give two different answers |
| SurveyFormV2.OnFormSubmit | components/survey-form-v2.tsx:196-202 | only question 6 can change, and it changes exactly when it reads "Altul" and the trimmed custom text is non-empty; it then becomes "Altul: " and that text; an accepted record stays accepted |
| SurveyFormV2.OnFormSubmitIdempotent | components/survey-form-v2.tsx:196-202 | submitting a rewritten record again changes nothing |
| SurveyFormV2.SubmitAfterTyping | components/survey-form-v2.tsx:196-202 | what the input wrote ("Altul: " and the typed text, untrimmed) is sent unchanged; only after "Altul" is clicked again is "Altul: " and the trimmed text sent |
| SurveyFormV2.ExistingMotiveId | components/survey-form-v2.tsx:129-137 | the id of a stored option with the same label, or the "could not find id" error exactly when no stored option has it |
| MobileResearch.OperatorKey | components/mobile-research.tsx:50 | a vote without an operator is counted under the empty name |
| MobileResearch.OptionIds | components/mobile-research.tsx:47 | the option id of each vote, in order |
| MobileResearch.VotesFor | components/mobile-research.tsx:46-52 | the operators of an option's votes are never more than the votes |
| MobileResearch.VotesForSnoc | components/mobile-research.tsx:46-52 | one more vote adds its operator to its own option only |
| MobileResearch.VotesForCount | components/mobile-research.tsx:46-49 | an option's votes are as many as the occurrences of its id |
| MobileResearch.VotedIffListed | components/mobile-research.tsx:48 | an option has votes exactly when its id occurs among them |
| MobileResearch.OperatorCountedStep | components/mobile-research.tsx:51 | `byOperator[op] = (byOperator[op] \|\| 0) + 1` keeps the per-operator counts exact |
| MobileResearch.VoteCounted | components/mobile-research.tsx:47-51 | counting one vote updates its own option's entry and keeps every count exact |
| MobileResearch.VoteCountedOwn | components/mobile-research.tsx:48-51 | the vote's option has one more vote in total and for its operator |
| MobileResearch.CountedFromParts | components/mobile-research.tsx:47-51 | the new entry for the vote's option and the untouched others give exact counts |
| MobileResearch.CountVote | components/mobile-research.tsx:47-51 | the loop body keeps the counts exact for the votes seen so far |
| MobileResearch.CountVotes | components/mobile-research.tsx:45-52 | an entry exactly for the options with votes, each with its number of votes and its votes per operator |
| MobileResearch.SumAtIsSumOver | components/mobile-research.tsx:51 | summing the per-operator counts is summing the occurrences of those operators |
| MobileResearch.TotalIsSumByOperator | components/mobile-research.tsx:49-51 | an option's total is the sum of its counts per operator |
| MobileResearch.SumTotalsIsSumOver | components/mobile-research.tsx:49 | summing the totals of options is summing the occurrences of their ids |
| MobileResearch.TotalsAddUp | components/mobile-research.tsx:45-52 | the totals of all options with votes add up to the number of votes |
| MobileResearch.MyCountIsOwnVotes | components/mobile-research.tsx:157-158 | an operator's points on an option are the votes they gave it, and nobody signed in sees 0 |
| MobileResearch.MyCount | components/mobile-research.tsx:157-158 | definition of the operator's own points on an option, 0 without a user or a vote; `MobileResearch.MyCountIsOwnVotes` states what they count |
| MobileResearch.VoteAddsOne | components/mobile-research.tsx:60-73 | a vote adds one to its option's total and to the operator's points, and nothing to other options |
| MobileResearch.OptionsByCategory | components/mobile-research.tsx:119-122 | three groups in the order nevoi, dorinte, probleme, each with exactly the options of its category |
| MobileResearch.GroupsPartition | components/mobile-research.tsx:119-122 | each group keeps the loaded order, the groups share no option, and an option of another category is in none |
| MobileResearch.ExistingOptionId | components/mobile-research.tsx:90-94 | the id of a stored option with the same label, or the "could not find id" error exactly when none has it |
| MobileResearch.AddOtherOption | components/mobile-research.tsx:75-109 | nothing happens with a blank text or no operator; a new option gets one vote from the operator; an insert error, or a duplicate whose label no stored option carries ("could not find id"), adds no vote; any change is exactly one vote by the operator |
| MobileResearch.AddExistingOptionVotes | components/mobile-research.tsx:88-100 | adding an option that exists gives the stored option with that label one more point from the operator, and nothing to the others |
| Auth.OnlyTableAccounts | lib/auth-context.tsx:17-20 | only "alexandra" and "nectarie" sign in, each with the password "1234" |
| Auth.Accepts | lib/auth-context.tsx:26-28 | definition of the password test on the normalized name; `Auth.OnlyTableAccounts` and `Auth.NameCaseAndSpaceIgnored` state what it accepts |
| Auth.NameCaseAndSpaceIgnored | lib/auth-context.tsx:26 | two names that are equal once lower-cased and trimmed are accepted with the same passwords |
| Auth.AuthContext.constructor | lib/auth-context.tsx:23 | nobody is signed in at first |
| Auth.AuthContext.Login | lib/auth-context.tsx:25-34 | sign-in succeeds exactly when the table holds the normalized name with that password; then the normalized name is the user, otherwise the user is unchanged; only table operators are ever signed in |
| Auth.AuthContext.Logout | lib/auth-context.tsx:36-38 | nobody is signed in afterwards |

## Left out

- Rendering, React state hooks and effects, the one-minute refresh of the live panel, `alert` and `console` output: these are UI and timing, not logic.
- Every Supabase query and insert, and the ANAF and OpenAPI.ro requests of the route's POST handler (app/api/lookup-cui/route.ts:3-84). The model covers only the handler's pure helpers. The answer to an insert is a parameter: `Labels.InsertOutcome`.
- The vote insert that `addOtherOption` makes after finding the option is never checked for an error. The model treats it as always succeeding.
- `try`/`catch`. The only exception the parser could raise comes from the regular-expression engine, which the model does not have.
- Unicode: `toLowerCase` is modelled for ASCII and the Romanian letters only. The `/i` flag is modelled on ASCII letters. Lengths count characters, not UTF-16 code units.
- LiveViewer.AggregateByField: the entries are in first-seen order for every key, while `Object.entries` lists integer-like keys first, in numeric order. The keys and counts are the same; only that ordering is not modelled.
- Keys inherited from the JavaScript prototype, such as `constructor`, are not modelled. This affects the tallies, where `(counts[key] || 0) + 1` on such a key would start from the inherited value, and `MobileResearch.CountVotes`, where `(byOperator[op] || 0) + 1` does the same for an operator named like such a key.
- `LiveViewer.Rate`: `toFixed(1)` on a binary floating-point quotient is modelled as exact rounding half up on the rational `100 * k / total`. For some quotients the float rounds the other way, and the model does not capture that.
- `LiveViewer.ScoreBucket`: fractional and non-finite scores are not modelled, since the rows hold integers.
- `Records.SurveyResponse.operator` is a string. A `null` operator, which `r.operator?.toLowerCase()` tolerates, is not modelled.
- The `keyof SurveyResponse` parameter of the aggregations is a column accessor built from a `Records.Field`.
- react-hook-form's `setValue`, `watch` and `zodResolver` wiring:
  - The form's values are the typed record `ValidationV2.FormDataV2`, with `undefined` as `None`.
  - A schema failure is modelled as the list of fields in error.
- The stale closures of `useCallback`. The model applies each click to the current form.
- `SurveyMotiveOption`, the row type of lib/supabase.ts, is not part of this model. Its `is_custom` and `created_at` columns are not read by the modelled logic.
- `CuiLookup.ExtractAdministrator`: the contract does not say that a match gives a non-empty administrator. The capture can be white space only, which then trims to "".
- The first questionnaire's component (components/survey-form.tsx) is context. Only its default values are used, in `Validation.FormDefaults`.

## Findings

| source | as written | input that shows it | evidently intended | confidence | as-written member | corrected member |
|---|---|---|---|---|---|---|
| components/survey-form-v2.tsx:142 | after a custom motive is inserted or found as a duplicate, `toggleMotive` is called with its id, which unselects it when it is already selected | motive 7, labelled "Lipsă timp", is selected for question 4; the operator types "Lipsă timp" again as a custom motive; the insert fails with 23505 (an exact repeat of the stored label), the lookup finds option 7, and the toggle removes it; `SurveyFormV2.AddSelectedMotiveExample` shows the same on a concrete form | the motive is selected after "Add", whether it was selected before or not | medium, not executed | SurveyFormV2.AddSelectedMotiveUnselects | SurveyFormV2.AddOtherMotiveSelects |
