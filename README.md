# mapprint, modelled in Dafny

mapprint formats a template by replacing each directive with the value bound to its key. A directive is a key token followed by a modifier prefix and a key. The token is `%` unless the printer sets another. Values come from the printer's default bindings and from the sources passed to the call; a later source overrides an earlier one.

The modifier prefix holds an optional alignment mark (`+` right, `-` left, `|` centre), a fill sequence, a minimum width and a precision. The precision selects one element of a list. Two tokens in a row stand for one token. A key that no source binds goes to the printer's key-not-found strategy: KeepKey, ClearKey, DefaultValue or a custom hook. `Printer.SuppressErrors` decides whether an error aborts the call or only drops the directive that raised it. The package-level `Sprintf` suppresses errors.

The model is pure: every stage is a function over datatypes.

- `Values`: the kinds a bound value can have, the errors, and `Option`/`Result`.
- `Decimal`: base-10 text of integers and its parse back, plus the fixed-point text an integer gets under a precision.
- `Padding`: widening a text to a width with an alignment and a tiled fill sequence.
- `Grammar`: the reference grammar. `RunEnd` over character classes, the modifier grammar (`ModifiersAt`), `ParseDirective`, `NextSegment` and the scanner `Scan`.
- `Lexer`: the scanner as a cursor, one function per state, as the formatter reads a template. `LexIsScan` proves that it splits every template as `Scan` does, and `ScanRoundTrip` that the segments spell the template back.
- `Bindings`: `makeBindings` (`MakeBindings`, turning sources into layers and errors) and `Get`, with precedence stated against a merged map.
- `Rendering`: the text of each value kind, the list selector and the built-in value printer `DefaultPrint`.
- `Formatter`: the `Printer` configuration, the key-not-found strategies, the error policy and `Sprintf`.

Each `require.Equal` or `require.Panics` of the test file that checks a `Sprintf` result is a lemma about `Sprintf`, found in the `*Cases` modules, except the float cases listed under "## Left out". Each is proved by walking the template one segment at a time. The checks of `TestMakeBindings` (lines 402-465) are lemmas about `MakeBindings` and `Get` in `BindingCases`, and the conditions a custom value printer tests on what it is handed (lines 132-134) are the guard of `PrinterCases.CustomPrintValue`.

- `Templates` gives each golden template as the concatenation of its segments' source texts, with the way the cursor splits it.
- `Prefixes` reads each modifier prefix that the golden cases use.

A panicking call is a call whose result is `Err`.

## Model

| member | source | states |
|---|---|---|
| Decimal.NatToString | mapprint_test.go:69-70 | the base-10 text of a number is a canonical digit string (non-empty, no leading zero) that reads back as the number |
| Decimal.NatToStringOfDigits | mapprint_test.go:69-70 | every canonical digit string is the text of the number it denotes, the other half of the round trip |
| Decimal.IntToString | mapprint_test.go:14-18 | a signed integer's text starts with a minus sign exactly when it is negative, and the rest is the canonical text of its magnitude |
| Decimal.FixedPoint | mapprint_test.go:368-370 | under precision p an integer prints as its own text, then a point and p zeros when p > 0 |
| Padding.Tile | mapprint_test.go:354 | n characters of the fill sequence repeated from its first character (`AB` tiles as `ABA`) |
| Padding.Pad | mapprint_test.go:335-356 | a text at least as wide as the width is returned unchanged; otherwise the result is exactly the width, holds the text at the alignment's offset, and each pad region is tiled from the first character of its own fill (`AB` gives `AB` before and `ABA` after `Earth`) |
| Padding.RightPadsBefore | mapprint_test.go:335-342 | right alignment (no mark, or `+`) puts all padding before the text |
| Padding.LeftPadsAfter | mapprint_test.go:345-347 | `-` puts all padding after the text |
| Padding.CenterSplitsPadding | mapprint_test.go:350-356 | `\|` puts half the padding, rounded down, before the text and the rest after, so an odd leftover goes right |
| Grammar.RunEndIsMaximal | mapprint_test.go:327-330 | a run ends at the first character outside its class: every character before the end is in the class, the one at the end is not |
| Grammar.MaximalRunIsRunEnd | mapprint_test.go:327-330 | any maximal run of a class is the one `RunEnd` finds |
| Grammar.KeyEnd | mapprint_test.go:28-31 | a key starts at a position exactly when a letter or underscore stands there |
| Grammar.KeyEndIsMaximal | mapprint_test.go:321-330 | a key runs over letters, digits and underscores as far as they go (`%textbye` reads `textbye`, `%Foo!` reads `Foo`) |
| Grammar.ParseDirective | mapprint_test.go:12 | a directive fits in the template, and one is always found after a token when a letter follows |
| Grammar.DirectiveSpells | mapprint_test.go:12 | a directive's prefix and key are the template's characters right after the token |
| Grammar.DirectiveKey | mapprint_test.go:321-330 | a directive's key starts with a letter or underscore, holds only key characters, cannot be continued by the next character, and a non-empty prefix is what the modifier grammar read |
| Grammar.DigitsAreNoDirective | mapprint_test.go:28-31 | digits that no key follows make no directive (`%1`) |
| Grammar.ReparsePrefix | mapprint_test.go:131-133 | reading the modifier grammar on the cut-out prefix text gives the modifiers read in place, so a value printer handed only the prefix (`8`) sees what the scanner saw |
| Grammar.KeyKeyChars | mapprint_test.go:321-330 | the key text cut out of the template is an identifier |
| Grammar.FillCut | mapprint_test.go:354-356 | a fill sequence followed by width digits is the template text between them |
| Grammar.FillReachesWidth | mapprint_test.go:378-381 | the fill sequence is every character from after the alignment mark up to the first digit or `.`, whatever those characters are, when a digit stands there; the width begins at that digit (`%+-10` fills with `-`) |
| Grammar.ModifiersAt | mapprint_test.go:334-381 | the modifiers a prefix spells, part by part; its contract is stated by `ReparsePrefix`, `FillCut`, `FillReachesWidth` and the `Prefixes` lemmas |
| Grammar.ParseModifiers | mapprint_test.go:128-139 | the modifiers a value printer reads from the raw prefix text it is handed; `DirectiveModifiers` proves them equal to the ones read in place |
| Grammar.DirectiveModifiers | mapprint_test.go:131-139 | the modifiers a printer reads from a directive's prefix are those of the template at that point, and an empty prefix reads as right-aligned, space fill, no width, no precision |
| Grammar.EscapeIsTwoTokens | mapprint_test.go:109-110 | an escape is scanned only from two tokens in a row |
| Grammar.NoDoubleTokenMeans | mapprint_test.go:163-171 | the recursive no-two-tokens predicate holds exactly when no position holds two tokens in a row |
| Grammar.EscapesNeedTwoTokens | mapprint_test.go:163-171 | a template without two tokens in a row scans to no escape |
| Lexer.LexRoundTrip | mapprint_test.go:163-171 | the cursor loses nothing: the source texts of the segments it emits from a position spell the template from there |
| Lexer.PlaceholderSpelled | mapprint_test.go:163-171 | a placeholder written back is the token followed by the directive's prefix and key, as they stood in the template |
| Lexer.ScanRoundTrip | mapprint_test.go:163-171 | scanning loses nothing: the segments' source texts, concatenated, are the template again |
| Grammar.ScanOfPlainText | mapprint_test.go:12 | text without the token is one literal segment |
| Grammar.NextSegment | mapprint_test.go:105-119 | the segment at a position always consumes at least one character and never runs past the template; what it is, is stated by `EscapeIsTwoTokens`, `LexStep` and the round trip |
| Grammar.TokenSegment | mapprint_test.go:105-119 | at a token: a directive if one follows, else an escape if a second token follows, else a literal token; it consumes at least the token and stays inside the template |
| Grammar.Scan | mapprint_test.go:105-119 | the reference split of a template into segments; `ScanRoundTrip` proves that their source texts spell the template back and `EscapesNeedTwoTokens` that escapes come only from double tokens |
| Lexer.LexTokenPrefix | mapprint_test.go:119 | after a token the cursor reads exactly the modifier grammar's prefix, so `%%10Percent` takes `%` as a fill |
| Lexer.LexTextStep | mapprint_test.go:109 | the cursor's literal text is the grammar's text segment |
| Lexer.LexTokenStep | mapprint_test.go:109-119 | what the cursor reads after a token is the grammar's token segment |
| Lexer.LexStep | mapprint_test.go:109-119 | one step of the cursor emits the grammar's next segment and goes on after its source text |
| Lexer.LexIsScan | mapprint_test.go:109-119 | the cursor and the reference grammar split every template alike |
| Lexer.Lex | mapprint_test.go:105-119 | the cursor the formatter reads a template with; `LexIsScan` proves it equal to `Scan` and `LexRoundTrip` that it loses nothing |
| Bindings.MakeBindingsConcat | mapprint_test.go:249-251 | the bindings of a concatenation of source lists are the two lists' layers and errors concatenated, in order |
| Bindings.MakeBindingsOne | mapprint_test.go:259-272 | a valid source adds its one layer; an invalid one adds its error and no layer |
| Bindings.NoErrorsIffAllValid | mapprint_test.go:291-317 | binding reports no error exactly when every source is valid, and each source gives one layer or one error |
| Bindings.GetUpToIsMerged | mapprint_test.go:253-257 | lookup over the first n layers agrees with the merged map of those layers |
| Bindings.GetIsMerged | mapprint_test.go:253-257 | `Get` agrees with looking the key up in all layers merged, later layers overriding earlier ones |
| Bindings.LaterLayerWins | mapprint_test.go:256-257 | a layer added last overrides every earlier binding of its keys and leaves other keys as they were |
| Bindings.GetFindsLastDefinition | mapprint_test.go:253-257 | a key is found exactly when some layer defines it, and then with the value of the last such layer |
| Bindings.Layer | mapprint_test.go:258-283 | a string-keyed map or a struct binds its entries, a pointer binds what its target binds, the untyped nil binds nothing; a map with other keys, a typed nil pointer and any other value are errors; stated for lists by `MakeBindingsOne` and `NoErrorsIffAllValid` |
| Bindings.MakeBindings | mapprint_test.go:241-251 | the layers of the valid sources and the errors of the invalid ones, in order; stated by `MakeBindingsConcat`, `MakeBindingsOne` and `NoErrorsIffAllValid` |
| Bindings.Get | mapprint_test.go:249-257 | lookup, last layer first; `GetIsMerged` and `GetFindsLastDefinition` state it against the merged map and the last defining layer |
| Bindings.GetUpToSamePrefix | mapprint_test.go:249-257 | lookup in the first n layers depends on nothing after them |
| Bindings.EmptyLayerIsInvisible | mapprint_test.go:258-260 | a layer that binds nothing changes no lookup, wherever it stands among the others |
| Bindings.EmptyLayerGet | mapprint_test.go:258-260 | `Get` gives the same answer with or without an empty layer anywhere in the list |
| Rendering.PointerIsTransparent | mapprint_test.go:86-87 | a pointer prints as its target, whatever the prefix |
| Rendering.FunctionResults | mapprint_test.go:33-66 | a function with one result prints as that result, with several as the list of them, with none as the empty text |
| Rendering.NoTextForm | mapprint_test.go:89-97 | nil and a map value are errors, whatever the prefix |
| Rendering.ListSelect | mapprint_test.go:372-376 | under precision p a list renders as its element p without precision, and an index past the end is an error |
| Rendering.RenderAllElementwise | mapprint_test.go:20-26 | a list renders exactly when each element does, and then part k is element k's text |
| Rendering.JoinCons | mapprint_test.go:20-26 | list parts are joined with ", " between neighbours and none after the last |
| Rendering.JoinConcat | mapprint_test.go:20-26 | joining two non-empty runs of list parts gives the two joined runs with one ", " between them |
| Rendering.DefaultPrintShape | mapprint_test.go:334-357 | the built-in printer succeeds exactly when the value renders, and then widens the text to the width without ever cutting it, placed as the alignment says |
| Rendering.Render | mapprint_test.go:11-97 | the text of each value kind; stated for pointers, functions, nil and unsupported values, and lists by `PointerIsTransparent`, `FunctionResults`, `NoTextForm`, `ListSelect` and `RenderAllElementwise` |
| Rendering.RenderList | mapprint_test.go:372-376 | a list in brackets with its elements joined by ", ", or under precision p only its element p; stated by `ListSelect`, `RenderAllElementwise` and `JoinCons` |
| Rendering.DefaultPrint | mapprint_test.go:334-381 | the built-in printer: the modifiers the prefix spells applied to the value; stated by `DefaultPrintShape` and the `Prefixes` and `PrefixCases` lemmas |
| Rendering.PrintWith | mapprint_test.go:334-356 | a rendered value padded to the width with the alignment and the fill; stated by `DefaultPrintShape` and `ZeroPadding` |
| Rendering.ZeroPadding | mapprint_test.go:363 | a width with a leading `0` puts zeros only before a fixed-point number: right alignment gives zeros then the number, left alignment the number then the fill sequence |
| Rendering.ZeroPadsRight | mapprint_test.go:363 | right-aligned zero padding gives exactly the zeros for the missing width followed by the number |
| Rendering.ZeroPadsLeft | mapprint_test.go:363 | left-aligned zero padding gives the number followed by the fill sequence, never zeros after it |
| Formatter.SuppressedSegmentsSucceed | mapprint_test.go:89-97 | with error suppression formatting the segments never fails |
| Formatter.SegmentIgnoresPolicy | mapprint_test.go:286-317 | a segment renders alike whether or not errors are suppressed |
| Formatter.StrictSegments | mapprint_test.go:223-237 | in strict mode formatting succeeds exactly when every segment renders, then gives what the suppressing printer gives, and otherwise reports the error of the first failing segment |
| Formatter.FormatSegmentsCons | mapprint_test.go:12 | a segment's text comes before the rest's output; a failing segment aborts in strict mode and is dropped otherwise |
| Formatter.FormatStep | mapprint_test.go:12 | a segment that renders puts its text before the rest's output |
| Formatter.SkipStep | mapprint_test.go:262-265 | with error suppression a failing segment contributes nothing |
| Formatter.FailStep | mapprint_test.go:305-310 | in strict mode a failing segment's error is the result |
| Formatter.PropagateStep | mapprint_test.go:305-310 | an error further on is the result when this segment renders |
| Formatter.FormatSegmentsConcat | mapprint_test.go:12-18 | the output of two segment lists in a row is the two outputs concatenated, or the first error met |
| Formatter.SuppressedSprintfSucceeds | mapprint_test.go:209-222 | a printer that suppresses errors, the package-level one included, always produces a text |
| Formatter.StrictSprintf | mapprint_test.go:286-317 | a strict printer succeeds exactly when every source is bindable and every segment renders, and then prints what the suppressing printer prints |
| Formatter.StrictRejectsInvalidSource | mapprint_test.go:291-294 | a strict printer fails on an invalid source even when the template looks nothing up |
| Formatter.InvalidSourceSkipped | mapprint_test.go:266-272 | with error suppression an invalid source is skipped as if it had not been passed |
| Formatter.DefaultsHaveLowestPrecedence | mapprint_test.go:249-254 | a key the call's sources bind takes their value; otherwise it falls back to the default bindings |
| Formatter.GetUpToPrepend | mapprint_test.go:249-254 | a layer put in front is consulted only for keys no later layer binds |
| Formatter.NoStrategyKeepsKey | mapprint_test.go:159-171 | a printer without a strategy behaves as with KeepKey |
| Formatter.StrategyUnusedWhenBound | mapprint_test.go:105-112 | the strategy is never consulted when every directive's key is bound: any strategy gives the same output |
| Formatter.KeepKeyRestoresSegments | mapprint_test.go:159-171 | KeepKey with nothing bound writes every segment's own source text |
| Formatter.KeepKeyRestoresTemplate | mapprint_test.go:159-171 | KeepKey with nothing bound prints a template with no escaped token unchanged |
| Formatter.PlainTemplateIsCopied | mapprint_test.go:12 | a template without the token is copied as it stands |
| Formatter.Sprintf | mapprint_test.go:241-317 | `Printer.Sprintf`: bind the sources, then format the template's segments; stated by `StrictSprintf`, `SuppressedSprintfSucceeds`, `StrictRejectsInvalidSource`, `InvalidSourceSkipped` and `NilSourceBindsNothing`, and per case by the golden lemmas |
| Formatter.PackageSprintf | mapprint_test.go:11-97 | the package-level `Sprintf`, a zero printer that suppresses errors; `SuppressedSprintfSucceeds` states that it always gives a text |
| Formatter.AllSources | mapprint_test.go:241-257 | the default bindings first, then the call's sources in order; `DefaultsHaveLowestPrecedence` states the resulting precedence |
| Formatter.FormatSegments | mapprint_test.go:209-237 | the segments' texts in order, aborting on the first error in strict mode and dropping failing segments otherwise; stated by `FormatSegmentsCons`, `StrictSegments`, `SuppressedSegmentsSucceed` and `FormatSegmentsConcat` |
| Formatter.RenderSegment | mapprint_test.go:144-206 | literal text as it stands, an escape as one token, a bound key through the value printer and an unbound one through the key-not-found strategy; stated by `StrategyUnusedWhenBound`, `DefaultValueIsBinding` and `KeepKeyRestoresSegments` |
| Formatter.PrintValue | mapprint_test.go:128-141 | a configured value printer's text, unpadded, or an error when it fails; the built-in printer otherwise; stated per case by `ZeroValuePrinter` and `CustomPrintValue` |
| Formatter.OnKeyNotFound | mapprint_test.go:144-206 | KeepKey writes the directive back, ClearKey writes nothing, DefaultValue prints its value as a binding would be printed, and a hook writes text, has a value printed by the built-in printer, or fails; stated by `NoStrategyKeepsKey`, `DefaultValueIsBinding` and the `KeyNotFoundCases` lemmas |
| Formatter.SameLookupsSameOutput | mapprint_test.go:249-260 | formatting reads the layers only through lookups: layers that answer every lookup alike give the same output |
| Formatter.NilSourceBindsNothing | mapprint_test.go:258-260 | the untyped nil binds nothing and is no error: adding it anywhere among the sources changes no output, strict printer included |
| Formatter.DefaultValueIsBinding | mapprint_test.go:145-157 | with DefaultValue(v) an unbound key's directive prints exactly as it would were the key bound to v, through the same value printer and with the directive's modifiers |
| Prefixes.PrefixPercent10 | mapprint_test.go:119 | the prefix "%10" reads as right-aligned, filled with "%", at least 10 wide |
| Prefixes.PrefixPlusPlus10 | mapprint_test.go:381 | the prefix "++10" reads as right-aligned, filled with "+", at least 10 wide |
| Prefixes.PrefixPlusMinus10 | mapprint_test.go:379 | the prefix "+-10" reads as right-aligned, filled with "-", at least 10 wide |
| Prefixes.PrefixPlus10 | mapprint_test.go:340-342 | the prefix "+10" reads as right-aligned, at least 10 wide |
| Prefixes.PrefixPlus10Dot0 | mapprint_test.go:375 | the prefix "+10.0" reads as right-aligned, at least 10 wide, with precision 0 |
| Prefixes.PrefixMinusPlus10 | mapprint_test.go:380 | the prefix "-+10" reads as left-aligned, filled with "+", at least 10 wide |
| Prefixes.PrefixMinusMinus10 | mapprint_test.go:378 | the prefix "--10" reads as left-aligned, filled with "-", at least 10 wide |
| Prefixes.PrefixMinus10 | mapprint_test.go:345-347 | the prefix "-10" reads as left-aligned, at least 10 wide |
| Prefixes.PrefixDot | mapprint_test.go:374 | the prefix "." reads as right-aligned, no width, with precision 0 |
| Prefixes.PrefixDot0 | mapprint_test.go:373 | the prefix ".0" reads as right-aligned, no width, with precision 0 |
| Prefixes.PrefixDot3 | mapprint_test.go:368-370 | the prefix ".3" reads as right-aligned, no width, with precision 3 |
| Prefixes.Prefix10 | mapprint_test.go:335-337 | the prefix "10" reads as right-aligned, at least 10 wide |
| Prefixes.PrefixCenter10 | mapprint_test.go:350-352 | the prefix "\|10" reads as centred, at least 10 wide |
| Prefixes.PrefixCenterAB10 | mapprint_test.go:354-356 | the prefix "\|AB10" reads as centred, filled with "AB", at least 10 wide |
| Prefixes.FillCrossesToken | mapprint_test.go:365 | the fill runs across a space and a token up to the first digit: `%A %1B` has fill `A %`, width 1 and key `B` |
| Prefixes.SpaceAfterWidthFallsBack | mapprint_test.go:365 | with a space after the width no key follows the prefix, so `%Name has 3 apples` falls back to the bare key `Name` |
| Prefixes.DigitSplitsKey | mapprint_test.go:365 | a letter fill needs no alignment mark, so a digit inside a key splits it: `%md5sum` is key `sum` with fill `md` and width 5 |
| TypeCases.HelloWorld | mapprint_test.go:12 | the template "Hello %Planet!" with Planet bound to "World" prints "Hello World!" |
| TypeCases.NumbersAdd | mapprint_test.go:14-18 | "%Number1 + %Number2 = %Number3" with the three keys bound to 1, 2 and 3 prints "1 + 2 = 3" |
| TypeCases.StringList | mapprint_test.go:20-26 | a list of three strings prints as "[Earth, Kepler-107, Starkiller Base]" |
| TypeCases.DigitsAreNoKey | mapprint_test.go:29-31 | "%1" prints "%1" even though "1" is bound |
| TypeCases.FunctionOfInt | mapprint_test.go:34-38 | a function returning 3 prints "3" |
| TypeCases.FunctionOfString | mapprint_test.go:39-43 | a function returning "Hello World" prints "Hello World" |
| TypeCases.FunctionOfList | mapprint_test.go:49-53 | a function returning the list ["Hello", 1] prints "[Hello, 1]" |
| TypeCases.FunctionOfTwo | mapprint_test.go:54-58 | a function returning "Hello" and 1 prints "[Hello, 1]" |
| TypeCases.FunctionSelect | mapprint_test.go:59-63 | "%.0value" on a function returning "Hello" and 1 prints "Hello" |
| TypeCases.FunctionOfNothing | mapprint_test.go:64-66 | a function with no results prints "" |
| TypeCases.SignedInt | mapprint_test.go:69 | int 6 prints "6" |
| TypeCases.UnsignedInt | mapprint_test.go:70 | uint 6 prints "6" |
| TypeCases.BoolTrue | mapprint_test.go:79 | true prints "true" |
| TypeCases.BoolFalse | mapprint_test.go:80 | false prints "false" |
| TypeCases.RuneCode | mapprint_test.go:83 | the rune 'A' prints "65" |
| TypeCases.PointerTarget | mapprint_test.go:86-87 | a pointer to "Hello" prints "Hello" |
| TypeCases.UnsupportedKind | mapprint_test.go:90-92 | a map value prints "" |
| TypeCases.NilPrintsNothing | mapprint_test.go:95-97 | a nil value prints "" |
| TypeCases.LoneTokenIsText | mapprint_test.go:109 | "Foo % Bar" prints "Foo % Bar" and no hook is called |
| TypeCases.EscapeIsOneToken | mapprint_test.go:110 | "Foo %% Bar" prints "Foo % Bar" |
| TypeCases.KeyThenToken | mapprint_test.go:112 | "Foo %Percent% Bar" prints "Foo 100% Bar" |
| TypeCases.KeyThenEscape | mapprint_test.go:113 | "Foo %Percent%% Bar" prints "Foo 100% Bar" |
| TypeCases.EscapeThenKey | mapprint_test.go:115 | "Foo %%%Percent% Bar" prints "Foo %100% Bar" |
| TypeCases.EscapesAround | mapprint_test.go:116 | "Foo %%%Percent%% Bar" prints "Foo %100% Bar" |
| TypeCases.EscapesWithoutSpaces | mapprint_test.go:118 | "Foo%%%Percent%%Bar" prints "Foo%100%Bar" |
| TypeCases.TokenFill | mapprint_test.go:119 | "Foo %%10Percent Bar" prints "Foo %%%%%%%100 Bar" |
| PrinterCases.ZeroValuePrinter | mapprint_test.go:124-127 | the zero printer prints "Hello %Planet!" with Planet = "Earth" as "Hello Earth!" |
| PrinterCases.CustomPrintValue | mapprint_test.go:128-141 | a value printer that expects prefix "8", key "Planet" and value "Earth" and writes nothing turns "Hello %8Planet!" into "Hello !" |
| PrinterCases.LongestKeyOnly | mapprint_test.go:320-324 | "Hello %Foo!" with Foo, FooBar and Bar bound prints "Hello World!" |
| PrinterCases.LongestKeyWins | mapprint_test.go:326-329 | "%textbye" with text and textbye bound prints "Goodbye" |
| PrinterCases.CustomToken | mapprint_test.go:383-391 | with token "$", "Hello $Planet!" and Planet = "Mercury" prints "Hello Mercury!" |
| KeyNotFoundCases.DefaultAlone | mapprint_test.go:149 | "%Planet" with no bindings prints "Mars" |
| KeyNotFoundCases.DefaultBang | mapprint_test.go:150 | "%Planet!" with no bindings prints "Mars!" |
| KeyNotFoundCases.DefaultFoo | mapprint_test.go:151 | "Foo %Planet!" with no bindings prints "Foo Mars!" |
| KeyNotFoundCases.DefaultFooNoBang | mapprint_test.go:152 | "Foo %Planet" with no bindings prints "Foo Mars" |
| KeyNotFoundCases.DefaultBar | mapprint_test.go:153 | "%Planet! Bar" with no bindings prints "Mars! Bar" |
| KeyNotFoundCases.DefaultBarNoBang | mapprint_test.go:154 | "%Planet Bar" with no bindings prints "Mars Bar" |
| KeyNotFoundCases.DefaultFooBar | mapprint_test.go:155 | "Foo %Planet! Bar" with no bindings prints "Foo Mars! Bar" |
| KeyNotFoundCases.DefaultFooBarNoBang | mapprint_test.go:156 | "Foo %Planet Bar" with no bindings prints "Foo Mars Bar" |
| KeyNotFoundCases.DefaultWide | mapprint_test.go:157 | "Foo %10Planet Bar" with no bindings prints "Foo       Mars Bar" |
| KeyNotFoundCases.KeepAlone | mapprint_test.go:163 | "%Planet" with no bindings prints "%Planet" |
| KeyNotFoundCases.KeepBang | mapprint_test.go:164 | "%Planet!" with no bindings prints "%Planet!" |
| KeyNotFoundCases.KeepFoo | mapprint_test.go:165 | "Foo %Planet!" with no bindings prints "Foo %Planet!" |
| KeyNotFoundCases.KeepFooNoBang | mapprint_test.go:166 | "Foo %Planet" with no bindings prints "Foo %Planet" |
| KeyNotFoundCases.KeepBar | mapprint_test.go:167 | "%Planet! Bar" with no bindings prints "%Planet! Bar" |
| KeyNotFoundCases.KeepBarNoBang | mapprint_test.go:168 | "%Planet Bar" with no bindings prints "%Planet Bar" |
| KeyNotFoundCases.KeepFooBar | mapprint_test.go:169 | "Foo %Planet! Bar" with no bindings prints "Foo %Planet! Bar" |
| KeyNotFoundCases.KeepFooBarNoBang | mapprint_test.go:170 | "Foo %Planet Bar" with no bindings prints "Foo %Planet Bar" |
| KeyNotFoundCases.KeepWide | mapprint_test.go:171 | "Foo %10Planet Bar" with no bindings prints "Foo %10Planet Bar" |
| KeyNotFoundCases.ClearAlone | mapprint_test.go:177 | "%Planet" with no bindings prints "" |
| KeyNotFoundCases.ClearBang | mapprint_test.go:178 | "%Planet!" with no bindings prints "!" |
| KeyNotFoundCases.ClearFoo | mapprint_test.go:179 | "Foo %Planet!" with no bindings prints "Foo !" |
| KeyNotFoundCases.ClearFooNoBang | mapprint_test.go:180 | "Foo %Planet" with no bindings prints "Foo " |
| KeyNotFoundCases.ClearBar | mapprint_test.go:181 | "%Planet! Bar" with no bindings prints "! Bar" |
| KeyNotFoundCases.ClearBarNoBang | mapprint_test.go:182 | "%Planet Bar" with no bindings prints " Bar" |
| KeyNotFoundCases.ClearFooBar | mapprint_test.go:183 | "Foo %Planet! Bar" with no bindings prints "Foo ! Bar" |
| KeyNotFoundCases.ClearFooBarNoBang | mapprint_test.go:184 | "Foo %Planet Bar" with no bindings prints "Foo  Bar" |
| KeyNotFoundCases.ClearWide | mapprint_test.go:185 | "Foo %10Planet Bar" with no bindings prints "Foo  Bar" |
| KeyNotFoundCases.HookAlone | mapprint_test.go:198 | "%Planet" with no bindings prints "Mars" |
| KeyNotFoundCases.HookBang | mapprint_test.go:199 | "%Planet!" with no bindings prints "Mars!" |
| KeyNotFoundCases.HookFoo | mapprint_test.go:200 | "Foo %Planet!" with no bindings prints "Foo Mars!" |
| KeyNotFoundCases.HookFooNoBang | mapprint_test.go:201 | "Foo %Planet" with no bindings prints "Foo Mars" |
| KeyNotFoundCases.HookBar | mapprint_test.go:202 | "%Planet! Bar" with no bindings prints "Mars! Bar" |
| KeyNotFoundCases.HookBarNoBang | mapprint_test.go:203 | "%Planet Bar" with no bindings prints "Mars Bar" |
| KeyNotFoundCases.HookFooBar | mapprint_test.go:204 | "Foo %Planet! Bar" with no bindings prints "Foo Mars! Bar" |
| KeyNotFoundCases.HookFooBarNoBang | mapprint_test.go:205 | "Foo %Planet Bar" with no bindings prints "Foo Mars Bar" |
| KeyNotFoundCases.HookWide | mapprint_test.go:206 | "Foo %10Planet Bar" with no bindings prints "Foo       Mars Bar" |
| KeyNotFoundCases.HookErrorSuppressed | mapprint_test.go:210-221 | a hook that fails turns "%Planet" into "" under error suppression |
| KeyNotFoundCases.HookErrorStrict | mapprint_test.go:222-237 | a hook that fails makes "%Planet" an error in strict mode |
| BindingCases.DefaultsOnly | mapprint_test.go:249 | with no sources the defaults print and Key3 and Key4 stay: "Value1 Value2 %Key3 %Key4" |
| BindingCases.DefaultsAndOneSource | mapprint_test.go:250 | a source binding Key3 adds to the defaults: "Value1 Value2 Value3 %Key4" |
| BindingCases.DefaultsAndTwoSources | mapprint_test.go:251 | two sources binding Key3 and Key4 give "Value1 Value2 Value3 Value4" |
| BindingCases.SourceOverridesDefault | mapprint_test.go:253-254 | a source binding Key1 to "Value2" overrides the default: "Value2" |
| BindingCases.LaterSourceOverrides | mapprint_test.go:256-257 | of two sources binding Key1, the later one wins: "Value3" |
| BindingCases.NilSourceSkipped | mapprint_test.go:259-260 | a nil source leaves the defaults: "Value1" |
| BindingCases.NilBindingPrintsNothing | mapprint_test.go:262-265 | "%Key3" with Key3 bound to nil prints "" |
| BindingCases.OtherKeysSkipped | mapprint_test.go:266-269 | a map with non-string keys binds nothing, so "%Key3" stays |
| BindingCases.NonSourceSkipped | mapprint_test.go:271-272 | the integer 1 as a source leaves the defaults: "Value1" |
| BindingCases.StructPointerBinds | mapprint_test.go:274-280 | a pointer to a struct with Key1 = "Value3" overrides the default: "Value3" |
| BindingCases.NilPointerSkipped | mapprint_test.go:282-283 | a nil struct pointer leaves the defaults: "Value1" |
| BindingCases.StrictNonSource | mapprint_test.go:291-294 | the integer 1 as a source is an error |
| BindingCases.StrictNilPointer | mapprint_test.go:296-303 | a nil struct pointer as a source is an error |
| BindingCases.StrictNilBinding | mapprint_test.go:305-310 | "%Key1" with Key1 bound to nil is an error |
| BindingCases.StrictOtherKeys | mapprint_test.go:312-317 | "%1" with a map keyed by complex numbers is an error |
| BindingCases.MapBindsEntries | mapprint_test.go:395-405 | a map source binds without error, Get finds Key1 and Key2 with their values, and those print as "Value1" and "Value2" |
| BindingCases.StructBindsFields | mapprint_test.go:407-422 | a struct source binds without error and Get finds its fields Key1 and Key2 |
| BindingCases.EmbeddedStructField | mapprint_test.go:424-443 | a struct with an embedded struct of unexported type binds its own fields Key1 and Key2; Key3 of the embedded struct is not bound |
| BindingCases.ChildStructField | mapprint_test.go:445-465 | a struct with a struct-valued field binds Key1 and Key2, and binds Key3 to a value with no text form, which renders as an error |
| PrefixCases.WidthEarth | mapprint_test.go:335 | "Hello %10Planet!" with Planet = "Earth" prints "Hello      Earth!" |
| PrefixCases.WidthKepler | mapprint_test.go:336 | "Hello %10Planet!" with Planet = "Kepler-107" prints "Hello Kepler-107!" |
| PrefixCases.WidthStarkiller | mapprint_test.go:337 | "Hello %10Planet!" with Planet = "Starkiller Base" prints "Hello Starkiller Base!" |
| PrefixCases.PlusEarth | mapprint_test.go:340 | "Hello %+10Planet!" with Planet = "Earth" prints "Hello      Earth!" |
| PrefixCases.PlusKepler | mapprint_test.go:341 | "Hello %+10Planet!" with Planet = "Kepler-107" prints "Hello Kepler-107!" |
| PrefixCases.PlusStarkiller | mapprint_test.go:342 | "Hello %+10Planet!" with Planet = "Starkiller Base" prints "Hello Starkiller Base!" |
| PrefixCases.MinusEarth | mapprint_test.go:345 | "Hello %-10Planet!" with Planet = "Earth" prints "Hello Earth     !" |
| PrefixCases.MinusKepler | mapprint_test.go:346 | "Hello %-10Planet!" with Planet = "Kepler-107" prints "Hello Kepler-107!" |
| PrefixCases.MinusStarkiller | mapprint_test.go:347 | "Hello %-10Planet!" with Planet = "Starkiller Base" prints "Hello Starkiller Base!" |
| PrefixCases.CenterEarth | mapprint_test.go:350 | "Hello %\|10Planet!" with Planet = "Earth" prints "Hello   Earth   !" |
| PrefixCases.CenterKepler | mapprint_test.go:351 | "Hello %\|10Planet!" with Planet = "Kepler-107" prints "Hello Kepler-107!" |
| PrefixCases.CenterStarkiller | mapprint_test.go:352 | "Hello %\|10Planet!" with Planet = "Starkiller Base" prints "Hello Starkiller Base!" |
| PrefixCases.CenterFillEarth | mapprint_test.go:354 | "Hello %\|AB10Planet!" with Planet = "Earth" prints "Hello ABEarthABA!" |
| PrefixCases.CenterFillKepler | mapprint_test.go:355 | "Hello %\|AB10Planet!" with Planet = "Kepler-107" prints "Hello Kepler-107!" |
| PrefixCases.CenterFillStarkiller | mapprint_test.go:356 | "Hello %\|AB10Planet!" with Planet = "Starkiller Base" prints "Hello Starkiller Base!" |
| PrefixCases.SelectFirst | mapprint_test.go:373 | "%.0Planets" prints the first element, "Earth" |
| PrefixCases.SelectEmptyPrecision | mapprint_test.go:374 | "%.Planets" prints "Earth" |
| PrefixCases.SelectPadded | mapprint_test.go:375 | "%+10.0Planets" prints "     Earth" padded to 10 |
| PrefixCases.SelectPastEnd | mapprint_test.go:376 | "%.4Planets" on three elements prints "" |
| PrefixCases.IntAsFixedPoint | mapprint_test.go:368 | "%.3f" with f = 1 prints "1.000" |
| PrefixCases.UintAsFixedPoint | mapprint_test.go:370 | "%.3f" with f = uint 1 prints "1.000" |
| PrefixCases.DashFillLeft | mapprint_test.go:378 | "Hello %--10Planet!" with Planet = "Earth" prints "Hello Earth-----!" |
| PrefixCases.DashFillRight | mapprint_test.go:379 | "Hello %+-10Planet!" with Planet = "Earth" prints "Hello -----Earth!" |
| PrefixCases.PlusFillLeft | mapprint_test.go:380 | "Hello %-+10Planet!" with Planet = "Earth" prints "Hello Earth+++++!" |
| PrefixCases.PlusFillRight | mapprint_test.go:381 | "Hello %++10Planet!" with Planet = "Earth" prints "Hello +++++Earth!" |

## Left out

- The implementation file `mapprint.go` is not part of this model. The grammar, the strategies and the error policy are reconstructed from the golden cases in `mapprint_test.go`, and each of those cases is proved against the model.
- Floating-point values (lines 72-76 and 358-365) are not modelled: Go's `%f` formatting and rounding are out of scope. An integer under a precision (lines 367-370) is modelled, as fixed-point text with zeros after the point.
- The width digit `0` pads with zeros only for fixed-point text, and only in the left pad region; the right region keeps the fill sequence (`Rendering.ZeroPadding`). The golden cases that show zero padding (lines 362-363) print floats, so no golden case here fixes that rule.
- Grammar.WidthStart: the fill sequence is the whole run of characters from after the alignment mark up to the first digit or `.`, kept when a digit follows; the run is not bounded otherwise, so it crosses spaces, punctuation and further tokens (`Grammar.FillReachesWidth`). `%A %1B` is then one directive with fill `A %`, width 1 and key `B` (`Prefixes.FillCrossesToken`), and `%Name has 3apples` one directive keyed `apples`. `%Name has 3 apples` is not: a space follows the width, so no key follows the prefix and the parser falls back to the bare key `Name` (`Prefixes.SpaceAfterWidthFallsBack`). A digit inside a key splits it the same way: `%md5sum` is the key `sum` with fill `md` and width 5 (`Prefixes.DigitSplitsKey`); line 365 (`%AB10.3f`, a letter fill with no alignment mark) requires this reading. No golden case bounds the run, and line 119 needs the token itself as a fill.
- The key-not-found strategies are reconstructed: DefaultValue prints its value through the value printer in effect, as a bound value would be, while a custom hook's substitute value goes through the built-in printer it is handed (lines 190-195). No golden case combines a strategy with a custom value printer.
- Writing to an `io.Writer` and the byte counts the hooks return are not modelled. Each stage returns its text, and a hook returns the text it would write.
- Runtime reflection is replaced by datatypes: `Value` for bound values and `Source` for binding sources. A struct source is the map of its own field names. A pointer, whether a source or a value, stands for its target.
- Calling a function value is not modelled: a `Func` value holds the results its call returned.
- Fields of an embedded struct are not promoted: the check at line 441 is commented out in the tests. `BindingCases.EmbeddedStructField` states that Key3 is then unbound.
- A struct-valued field (line 464, also commented out) is bound to `Unsupported`, whose rendering is an error. `BindingCases.ChildStructField` states both; the package printer suppresses the error, giving the empty text line 464 expects.
- A panic is modelled as an `Err` result: the strict cases at lines 233-235 and 291-317 are stated as `Sprintf(...).Err?`, with the error named.
- Side effects of the hooks are not modelled: the `calledCustomFunc` and `customPrintCalled` flags (lines 140, 207, 221 and 236). The `require.Equal` checks inside the custom value printer (lines 132-134) become its condition for succeeding.
- Keys are ASCII letters, digits and underscores; Unicode letters and digits are not modelled.
- Go's `int` and `uint` are modelled as unbounded integers. Without a precision they print in base 10, as Go prints them at any width, so wrap-around plays no part there.
- Decimal.FixedPoint: an integer under a precision is printed exactly, as its digits followed by a point and zeros. The tests say such an integer is treated as a float (lines 367 and 369), and a float64 holds integers exactly only up to 2^53, so for larger magnitudes the source prints the nearest float64 instead; floats are not modelled. A rune under a precision takes the same fixed-point form (`%.3` on 'A' gives `65.000`), since a rune is an integer kind; no golden case covers it.
- Concurrency and the reuse of one `Printer` across goroutines are not modelled.
