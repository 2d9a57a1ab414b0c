# Synnotech.Xunit core, modelled in Dafny

Synnotech.Xunit extends xunit in two ways, and this project models both in Dafny.

**Layered test settings.** `TestSettings.LoadConfiguration` checks three file names. It then builds a first configuration from the base, development and build-server JSON files and binds its "testConfiguration" section to a `TestConfiguration` record. The caller's arguments are applied to that record. The record then decides which sources the final configuration loads:
- always the base file;
- then the build-server file in build-server mode, followed by the development file when that is allowed;
- outside build-server mode, the development file instead;
- last, the environment variables, when they are asked for.

Later sources override earlier ones. Build-server mode comes from an explicit argument or from `TestConfiguration.IsInBuildServerMode`. That check reads an environment variable whose trimmed value is "true" in any letter case, or exactly "1".

**Test-case ordering.**
- `TestOrderDiscoverer` turns `[TestOrder(n)]` into a "TestOrder" trait whose value is the decimal text of `n`.
- `TestOrderer` sorts test cases stably by that trait when any case carries it. Otherwise it sorts by declaration line when every case has one. Otherwise it keeps the input order.
- `TraitOrderer` sorts stably by the trait alone.

Modules:
- `Wrappers`: `Option` and `Result`.
- `Text`: .NET white space, `Trim` and ordinal ignore-case comparison.
- `Numerals`: `Int32`, `int.ToString()` and `int.TryParse`.
- `Guards`: the Light.GuardClauses checks and the exceptions they throw.
- `Ordering`: `Enumerable.OrderBy` as a stable insertion sort, with the proof that "sorted, same elements, same order within each key" determines the result uniquely.
- `ConfigurationSources`: the part of Microsoft.Extensions.Configuration that is used.
  - Files and the environment are flat `map<string, string>` inputs.
  - `ConfigurationBuilder` is a class whose `Add…` methods append to its `sources` in place.
  - `Build` is a left fold of the layers.
- `Directives`: the `TestConfiguration` record, its build-server check and the binding of the section.
- `TestSettings`: the imperative `LoadConfiguration` and its two helpers, each proved against a specification function. `Resolve` specifies the whole method.
- `TestSettingsProperties`: what the cascade promises.
- `TestCases`, `TestOrderDiscoverer`, `TestOrderer`, `TraitOrderer`.

Where the code and its documentation disagree, the model follows the code. The documentation suggests that an explicit argument always wins. In the code, the three `bool?` arguments are only compared with `== true`. An explicit `false` therefore does exactly what `null` does and never switches off a directive that a file switched on. `TestSettingsProperties.ExplicitFalseIsLikeNull` proves this.

## Model

| member | source | states |
|---|---|---|
| Guards.MustNotBeNull | Code/Synnotech.Xunit/TestOrderer.cs:31 | a null argument gives `ArgumentNullException` for the named parameter; anything else passes through unchanged |
| Guards.MustNotBeNullOrWhiteSpace | Code/Synnotech.Xunit/TestSettings.cs:178-180 | succeeds exactly for a non-null, non-blank string and returns it; null gives `ArgumentNullException`, a blank string `ArgumentException` |
| Text.Trim | Code/Synnotech.Xunit/TestConfiguration.cs:20 | the result neither starts nor ends with white space |
| Text.TrimIgnoresPadding | Code/Synnotech.Xunit/TestConfiguration.cs:20 | white space added around a string does not change its trimmed form |
| Text.TrimOfTrimmed | Code/Synnotech.Xunit/TestConfiguration.cs:20 | a string without surrounding white space is its own trimmed form |
| Text.EqualsOrdinalIgnoreCase | Code/Synnotech.Xunit/TestConfiguration.cs:21 | every string equals itself ignoring case, and strings of different lengths never do |
| Text.OrdinalIgnoreCaseIsSymmetric | Code/Synnotech.Xunit/TestConfiguration.cs:21 | the ignore-case comparison gives the same answer with its arguments swapped |
| Text.TrueIgnoringCase | Code/Synnotech.Xunit/TestConfiguration.cs:21 | an ordinal ignore-case comparison with "true" holds exactly for the sixteen letter-case spellings of "true" |
| Numerals.NatToDecimal | Code/Synnotech.Xunit/TestOrderDiscoverer.cs:61 | the text of a natural number is non-empty, all digits and has no leading zero |
| Numerals.DecimalDenotes | Code/Synnotech.Xunit/TestOrderDiscoverer.cs:61 | the digits written for `n` have the value `n` |
| Numerals.FormatInt32 | Code/Synnotech.Xunit/TestOrderDiscoverer.cs:61 | `i.ToString()` starts with '-' exactly for a negative `i`, and the digits after any sign have the value of `i`'s magnitude |
| Numerals.TryParseInt32 | Code/Synnotech.Xunit/TestOrderer.cs:55 | a parse succeeds only for digits with an optional '+' or '-', and then its value is that of the digits, negated after '-' |
| Numerals.ParsePlus | Code/Synnotech.Xunit/TestOrderer.cs:55 | '+' followed by digits parses to their value exactly when it is at most `int.MaxValue` |
| Numerals.ParseMinus | Code/Synnotech.Xunit/TestOrderer.cs:55 | '-' followed by digits parses to their negated value exactly when it is at least `int.MinValue` |
| Numerals.ParseAccepts | Code/Synnotech.Xunit/TestOrderer.cs:55 | every non-empty digit string within range parses to its value, bare, after '+' or, negated, after '-' |
| Numerals.FormatThenParse | Code/Synnotech.Xunit/TestOrderer.cs:55 | `int.TryParse` of `i.ToString()` succeeds with `i`, for every 32-bit `i` |
| Numerals.FormatIsInjective | Code/Synnotech.Xunit/TestOrderDiscoverer.cs:60-61 | distinct 32-bit integers have distinct texts |
| Numerals.ParseRefuses | Code/Synnotech.Xunit/TestOrderer.cs:55 | the empty text, a lone sign and text with a non-digit do not parse |
| Ordering.InsertionPoint | Code/Synnotech.Xunit/TestOrderer.cs:51 | a new element goes after every element whose key is not greater and before the first greater one |
| Ordering.Insert | Code/Synnotech.Xunit/TestOrderer.cs:51 | inserting adds exactly the element and keeps a sorted sequence sorted |
| Ordering.OrderBy | Code/Synnotech.Xunit/TestOrderer.cs:51 | `OrderBy` returns a permutation of its input, sorted ascending by key, with equal keys in input order |
| Ordering.SortedWithSameKeyOrderIsUnique | Code/Synnotech.Xunit/TestOrderer.cs:50-61 | only one sequence is sorted and keeps a given order within keys, so `OrderBy`'s contract fixes its result |
| Ordering.OrderByOfSorted | Code/Synnotech.Xunit/TestOrderer.cs:74-75 | an already sorted sequence comes out unchanged |
| Ordering.OrderByOfEqualKeys | Code/Synnotech.Xunit/TraitOrderer.cs:20-30 | when every key is equal the input order is kept |
| Ordering.OrderByOfTwo | Code/Synnotech.Xunit/TraitOrderer.cs:20 | two elements given with the larger key first are swapped |
| Ordering.WithKeyOfSameElements | Code/Synnotech.Xunit/TestOrderer.cs:51 | two arrangements of the same elements have the same elements under each key |
| Ordering.OrderByOfDistinctKeys | Code/Synnotech.Xunit/TestOrderer.cs:51 | when no two keys are equal, every arrangement of the same elements sorts to the same sequence |
| Ordering.OrderByOfFour | Code/Synnotech.Xunit.Tests/ExplicitTestOrderTests.cs:11-42 | four elements with increasing keys given as 4, 1, 3, 2 come out as 1, 2, 3, 4 |
| TestOrderDiscoverer.ConvertOrderNumberToString | Code/Synnotech.Xunit/TestOrderDiscoverer.cs:35-62 | the 0-20 table agrees with `order.ToString()`, so the result is always the decimal text of the order |
| TestOrderDiscoverer.ConvertThenParse | Code/Synnotech.Xunit/TestOrderDiscoverer.cs:35-62 | `int.TryParse` of the converted text gives back the order |
| TestOrderDiscoverer.ConvertIsInjective | Code/Synnotech.Xunit/TestOrderDiscoverer.cs:35-62 | distinct orders give distinct texts |
| TestOrderDiscoverer.GetTraits | Code/Synnotech.Xunit/TestOrderDiscoverer.cs:31-32 | exactly one pair, named "TestOrder", whose value parses back to the order |
| TestOrderer.TraitKey | Code/Synnotech.Xunit/TestOrderer.cs:53-60 | the key is a 32-bit integer: `int.MaxValue` when the trait is absent, has no value or its first value does not parse, and otherwise the parsed first value |
| TestOrderer.LineNumberKey | Code/Synnotech.Xunit/TestOrderer.cs:75 | the key is a 32-bit integer |
| TestOrderer.DiscoveredOrderIsKey | Code/Synnotech.Xunit/TestOrderer.cs:53-57 | a case whose first "TestOrder" value came from the discoverer sorts under the declared order |
| TestOrderer.CheckIfTestOrderTraitIsPresent | Code/Synnotech.Xunit/TestOrderer.cs:39-48 | true exactly when some case carries the "TestOrder" trait |
| TestOrderer.CheckIfSourceInformationIsPresent | Code/Synnotech.Xunit/TestOrderer.cs:63-72 | true exactly when every case has source information with a line number |
| TestOrderer.OrderByTrait | Code/Synnotech.Xunit/TestOrderer.cs:50-61 | a permutation, ascending by explicit order, equal keys in input order |
| TestOrderer.OrderByLineNumber | Code/Synnotech.Xunit/TestOrderer.cs:74-75 | a permutation, ascending by line number, equal lines in input order |
| TestOrderer.OrderTestCases | Code/Synnotech.Xunit/TestOrderer.cs:29-37 | null is rejected; otherwise a permutation of the input, stably sorted by trait if any case has it, else by line number if all have one, else the input unchanged |
| TestOrderer.ExplicitOrderExample | Code/Synnotech.Xunit.Tests/ExplicitTestOrderTests.cs:11-42 | orders 4, 1, 3, 2 run as 1, 2, 3, 4, and an unrelated "Category" trait does not interfere |
| TestOrderer.ImplicitOrderExample | Code/Synnotech.Xunit.Tests/ImplicitTestOrderTests.cs:11-43 | without the trait, the five cases on lines 11, 18, 25, 32 and 39, discovered in any order, run in declaration order |
| TraitOrderer.Key | Code/Synnotech.Xunit/TraitOrderer.cs:22-29 | a 32-bit key that is `int.MaxValue` unless the trait has more than one value and the first parses, and then the parsed first value |
| TraitOrderer.OrderTestCases | Code/Synnotech.Xunit/TraitOrderer.cs:18-30 | null is rejected; otherwise a permutation stably sorted by `Key` |
| TraitOrderer.AtMostOneValueKeepsOrder | Code/Synnotech.Xunit/TraitOrderer.cs:22-30 | when no case has more than one "TestOrder" value, the output is the input order |
| TraitOrderer.OrderTestCasesIntended | Code/Synnotech.Xunit/TraitOrderer.cs:18-30 | with `Count > 0`: null rejected, a permutation stably sorted by `TestOrderer.TraitKey`, the key `TestOrderer` uses |
| TraitOrderer.SingleValuedOrdersAreNotSorted | Code/Synnotech.Xunit/TraitOrderer.cs:23 | `[TestOrder(2)]` then `[TestOrder(1)]` stay in that order as written, and are swapped with `Count > 0` |
| ConfigurationSources.WithPrefixStripped | Code/Synnotech.Xunit/TestSettings.cs:238 | exactly the variables named with the prefix, keyed without it, with their values |
| ConfigurationSources.Merge | Code/Synnotech.Xunit/TestSettings.cs:199-206 | a key is in the merge exactly when some layer defines it |
| ConfigurationSources.MergeTakesLastDefinition | Code/Synnotech.Xunit/TestSettings.cs:199-206 | a merged key has the value of the last layer that defines it |
| ConfigurationSources.ConfigurationBuilder.constructor | Code/Synnotech.Xunit/TestSettings.cs:199 | a new builder has no sources |
| ConfigurationSources.ConfigurationBuilder.AddJsonFile | Code/Synnotech.Xunit/TestSettings.cs:218 | appends the file to the builder's sources, in place |
| ConfigurationSources.ConfigurationBuilder.AddEnvironmentVariables | Code/Synnotech.Xunit/TestSettings.cs:236-238 | appends the environment source, with or without a prefix, in place |
| ConfigurationSources.Load | Code/Synnotech.Xunit/TestSettings.cs:182-185 | a JSON file reads as its pairs, or as nothing when missing; the environment source reads every variable, or with a prefix exactly the variables that carry it, keyed without it |
| ConfigurationSources.Build | Code/Synnotech.Xunit/TestSettings.cs:185 | the built configuration keeps its sources, and a key is present exactly when some source loads it |
| ConfigurationSources.LoadAll | Code/Synnotech.Xunit/TestSettings.cs:206 | one layer per source, in source order |
| ConfigurationSources.BuildTakesLastDefinition | Code/Synnotech.Xunit/TestSettings.cs:199-206 | a built configuration takes each key from the last source that defines it |
| ConfigurationSources.BuildHasOnlyDefinedKeys | Code/Synnotech.Xunit/TestSettings.cs:199-206 | a key no source defines is absent |
| Directives.TestConfiguration.IsInBuildServerMode | Code/Synnotech.Xunit/TestConfiguration.cs:9-24 | build-server mode needs a non-blank name of a variable that is set and whose trimmed value has length 1 or 4 |
| Directives.BuildServerModeIff | Code/Synnotech.Xunit/TestConfiguration.cs:9-24 | build-server mode holds exactly when the name is not blank, the variable is set, and its trimmed value spells "true" in any case or is "1" |
| Directives.BlankNameIsNeverBuildServer | Code/Synnotech.Xunit/TestConfiguration.cs:13-14 | a blank variable name gives false whatever the environment |
| Directives.UnsetVariableIsNeverBuildServer | Code/Synnotech.Xunit/TestConfiguration.cs:16-18 | an unset variable gives false |
| Directives.PaddingIsIgnored | Code/Synnotech.Xunit/TestConfiguration.cs:20 | white space around the value does not change the outcome |
| Directives.TrimmedValueDecides | Code/Synnotech.Xunit/TestConfiguration.cs:21-22 | for an unpadded value the outcome is "spells true or is 1" |
| Directives.PaddedUpperCaseTrue | Code/Synnotech.Xunit/TestConfiguration.cs:20-22 | " TRUE " switches build-server mode on |
| Directives.SwitchedOnExamples | Code/Synnotech.Xunit/TestConfiguration.cs:21-22 | "1" and "True" switch build-server mode on |
| Directives.SwitchedOffExamples | Code/Synnotech.Xunit/TestConfiguration.cs:21-22 | "0", "yes" and "11" do not switch build-server mode on |
| Directives.DefaultsWithoutDirectives | Code/Synnotech.Xunit/TestConfiguration.cs:26-29 | the fresh record has an empty name and prefix and both flags off, is never in build-server mode, and binding no directives leaves it unchanged |
| Directives.ParseBool | Code/Synnotech.Xunit/TestSettings.cs:189-190 | the result is `true` exactly when the trimmed text spells "true" in any case, `false` exactly when it spells "false", and nothing otherwise |
| Directives.BindBool | Code/Synnotech.Xunit/TestSettings.cs:189-190 | an absent directive keeps the record's value, a present one that parses gives the parsed value, and a failure names the key and its text |
| Directives.Bind | Code/Synnotech.Xunit/TestSettings.cs:188-190 | each directive present replaces the record's value, a boolean one by its parsed value, and the others are kept; binding fails exactly when a boolean directive's text is not a boolean |
| TestSettings.CheckFileNames | Code/Synnotech.Xunit/TestSettings.cs:178-180 | succeeds exactly when all three names are non-null and non-blank, and then returns them; otherwise the null or blank exception for the first of the three parameters that is bad |
| TestSettings.EffectiveDirectives | Code/Synnotech.Xunit/TestSettings.cs:182-197 | can fail only with a binding error |
| TestSettings.Resolve | Code/Synnotech.Xunit/TestSettings.cs:169-207 | succeeds exactly when the names pass and the binding succeeds, and then builds the planned sources |
| TestSettings.AddFurtherConfigurationFiles | Code/Synnotech.Xunit/TestSettings.cs:209-228 | appends to the builder in place exactly what the plan prescribes after the base file |
| TestSettings.AddEnvironmentVariablesIfNecessary | Code/Synnotech.Xunit/TestSettings.cs:230-239 | appends nothing, all variables, or the prefixed ones, in place |
| TestSettings.OverrideDirectives | Code/Synnotech.Xunit/TestSettings.cs:192-197 | the property-by-property overwrite yields the overridden record |
| TestSettings.BuildFirstConfiguration | Code/Synnotech.Xunit/TestSettings.cs:182-185 | the first configuration is the merge of base, development and build-server file, in that order |
| TestSettings.BuildFinalConfiguration | Code/Synnotech.Xunit/TestSettings.cs:199-206 | the final configuration is the merge of the planned sources |
| TestSettings.LoadConfiguration | Code/Synnotech.Xunit/TestSettings.cs:169-207 | the step-by-step method gives the outcome `Resolve` specifies |
| TestSettingsProperties.BlankFileNameIsRejected | Code/Synnotech.Xunit/TestSettings.cs:178-180 | a null or blank file name fails before any file or variable is read, with the exception for the first bad parameter |
| TestSettingsProperties.BuildFileDirectiveWins | Code/Synnotech.Xunit/TestSettings.cs:182-190 | in the first configuration a directive in the build-server file beats the other two files |
| TestSettingsProperties.DevelopmentFileDirectiveBeatsBase | Code/Synnotech.Xunit/TestSettings.cs:182-190 | without it in the build-server file, the development file's value beats the base file's |
| TestSettingsProperties.BuildFileNamesTheVariable | Code/Synnotech.Xunit/TestSettings.cs:182-197 | the build-server file's variable name is in force unless an argument replaces it |
| TestSettingsProperties.ArgumentsOverrideDirectives | Code/Synnotech.Xunit/TestSettings.cs:192-197 | a `true` or non-blank argument takes effect; any other leaves the bound directive; the development flag is never touched |
| TestSettingsProperties.PlanStartsWithBaseFile | Code/Synnotech.Xunit/TestSettings.cs:199-206 | the final list starts with the base file and has two to four sources |
| TestSettingsProperties.BuildFileIffBuildServerMode | Code/Synnotech.Xunit/TestSettings.cs:216-218 | with distinct names the build-server file is loaded exactly in build-server mode |
| TestSettingsProperties.OutsideBuildServerMode | Code/Synnotech.Xunit/TestSettings.cs:225-227 | outside build-server mode the files are base then development, followed only by environment variables |
| TestSettingsProperties.DevelopmentFileInBuildServerMode | Code/Synnotech.Xunit/TestSettings.cs:216-222 | in build-server mode the build-server file comes second, and the development file follows it exactly when the argument is `true` or the directive is set |
| TestSettingsProperties.EnvironmentVariablesComeLast | Code/Synnotech.Xunit/TestSettings.cs:230-239 | environment variables are loaded exactly when the directive says so, as the last source, unfiltered for a blank prefix |
| TestSettingsProperties.AlikeArgumentsResolveAlike | Code/Synnotech.Xunit/TestSettings.cs:192-197 | arguments act only through the file names, which flags are `true`, and the non-blank strings |
| TestSettingsProperties.ExplicitFalseIsLikeNull | Code/Synnotech.Xunit/TestSettings.cs:216-219 | an explicit `false` for any boolean argument has the same outcome as `null` |
| TestSettingsProperties.BlankStringArgumentsAreIgnored | Code/Synnotech.Xunit/TestSettings.cs:194-197 | a blank prefix or variable-name argument has the same outcome as the empty default |
| TestSettingsProperties.LaterSourcesWin | Code/Synnotech.Xunit/TestSettings.cs:199-206 | each key of the loaded configuration has the value of the last source in the final list that defines it |
| TestSettingsProperties.BuildServerLayers | Code/Synnotech.Xunit.Tests/TestSettingsTests.cs:11-17 | with the development file loaded in build-server mode, a key takes the development value, else the build-server value, else the base value |
| TestSettingsProperties.NoDirectivesLoadBaseThenDevelopment | Code/Synnotech.Xunit/TestSettings.cs:169-227 | arguments that switch nothing on and replace nothing, with files that hold no directive, load the base file and then the development file, whatever the file names |
| TestSettingsProperties.DefaultCallLoadsBaseThenDevelopment | Code/Synnotech.Xunit/TestSettings.cs:169-176 | the default call, with files that hold no directive, loads the base file and then the development file |

## Left out

- JSON reading and parsing: a file is given as its flattened key/value pairs. A missing file is an absent key and reads as empty. Malformed JSON is not modelled.
- Configuration keys are compared case-sensitively. Microsoft.Extensions.Configuration compares them ignoring case.
- Environment variables:
  - The environment is a map passed in, so nothing changes it during a call.
  - The library's mapping of `__` to `:` in variable names is not modelled.
  - Its case-insensitive prefix match is modelled as a case-sensitive one.
- The `Lazy<IConfiguration>` singleton (`TestSettings.Configuration`) is not modelled. Its point is thread-safe one-time initialisation. `DefaultArguments` are the arguments it uses.
- `TestExtensions` is not modelled: it writes to `ITestOutputHelper`, which is output I/O.
- The reflection test and the `base.GetTraits` delegation in `TestOrderDiscoverer.GetTraits` are not modelled: they are framework discovery glue. Only the `TestOrderAttribute` case is modelled.
- `TestOrderAttribute` contributes only its `TraitName` constant, `TestCases.TestOrderTraitName`.
- Numerals.FormatInt32 always writes '-' for a negative number. `ToString()` and `int.TryParse` use the current culture's negative sign, which can differ.
- Numerals.TryParseInt32 does not accept the leading or trailing white space or the culture-specific signs that `int.TryParse` accepts. It is decimal digits with an optional '+' or '-' within the 32-bit range.
- Directives.ParseBool does not model the trailing '\0' characters that `bool.TryParse` also trims.
- Directives.Bind binds only the four directives as flat keys. It does not model the binder's other conversions, such as an empty string for a boolean.
- `Directives.TestConfiguration` is modelled as a value. `LoadConfiguration` never shares the record, so overwriting it in place and rebinding a local variable are indistinguishable. For the same reason, evaluating `IsInBuildServerMode` cannot change the record.
- A `null` variable-name or prefix argument is represented by the empty string. Both are blank, and the method treats them alike.
- Text.EqualsOrdinalIgnoreCase folds only ASCII letters. That is exact for comparisons with "true", "false" and "1", the only ones the core makes.
- TestOrderer.LineNumberKey returns 0 for a case without a line number, where the source's `!` would throw. It is only used once every case is known to have a line number.

## Findings

| source | as written | input that shows it | evidently intended | confidence | as-written member | corrected member |
|---|---|---|---|---|---|---|
| Code/Synnotech.Xunit/TraitOrderer.cs:23 | the key is read only when the "TestOrder" trait has more than one value (`values.Count > 1`) | two cases declared `[TestOrder(2)]` then `[TestOrder(1)]`. The discoverer gives each exactly one value, so both keys are `int.MaxValue` and the order stays 2, 1 | `values.Count > 0`, as in TestOrderer.cs:54, so the cases run 1, 2 | medium, not executed | TraitOrderer.SingleValuedOrdersAreNotSorted | TraitOrderer.OrderTestCasesIntended |
