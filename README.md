# libparamset in Dafny

A verified model of the core of libparamset, a C library for reading
command-line and configuration parameters. The library keeps, for every
parameter of a set, a history of the values it received. Each value has a
source, a priority and the results of its format and content checks. Queries
filter that history by source and by a priority selector. Names that match no
parameter are classified as typos or unknowns. On top of this, the library
picks the one task a user's parameters are consistent with, parses a command
line into the set, and formats help text.

The model follows the library's own layering, one file per part:

- `errors.dfy` (`Errors`): the `PST_*` status codes the model returns, and
  the `Option` and `Result` types.
- `param_value.dfy` (`ParamValue`): the value history `PARAM_VAL`, as a class
  `ValueList` over a sequence of values. It covers append with priority
  bounds, the filtered `getElement` / `getElementCount`, the invalid view,
  `getPriority`, `popElement`, and an `Iterator` whose `fetch` agrees with
  `getElement`.
- `parameter.dfy` (`Parameter`): `PARAM` as a class `Param`, covering:
  - multiplicity constraints;
  - the convert, format and content hooks applied on add;
  - parse-option combination rules;
  - in-place wildcard expansion through an expander passed as a function;
  - `clearValue`, `getAtr`, and print names.
- `typo.dfy` (`Typo`): the Levenshtein-based `difference` of an unknown token
  from a parameter name, the smallest difference `smdiff`, and the rule
  "difference < 90 and difference < smdiff + 10". It also works the `dbm`
  example of the command-line tests through.
- `param_set.dfy` (`ParamSet`):
  - the set's pure semantics over snapshots: `PARAM_SET_add` routing,
    multi-name `getStr` / `getValueCount`, `isSetByName` /
    `isOneOfSetByName`, `clearParameter` and `clearValue`;
  - a class `ParamSet` whose methods perform them on the `Param` objects and
    are proved against those functions.
- `task_def.dfy` (`TaskDef`, `TaskDefExamples`):
  - the consistency score of a task definition, `getMoreConsistent`, and the
    repair and ignore reports (which atoms, not their wording);
  - a class `TaskSet` for add / analyze / getConsistentTask / cleanIgnored;
  - every expected value of the task-definition tests.
- `cmdline.dfy` (`CommandLine`, `CommandLineExamples`): `PARAM_SET_parseCMD`.
  - A pure tokenizer turns the arguments after the program name into steps.
    A step stores a value for a parameter or reports an unmatched name.
  - A pending state carries a flag waiting for its value, or a sequence
    collecting values.
  - `ParseCmd` walks the arguments with that state and performs the steps on
    a `ParamSet`.
- `strn.dfy` (`Strn`) and `strn_examples.dfy` (`StrnExamples`): the help-text
  formatter of `strn.c`, covering:
  - `PST_strncpy`;
  - `parseNextToken` (escapes `\\`, `\ `, `\>n`, parse errors);
  - `PST_vsnhiprintf` / `PST_snhiprintf` writing into a `char` array.

  Each is specified by pure functions: `NextToken`, `Tokens`, `Flow` (the
  layout) and `Help`, which is the layout cut to the buffer. The expected
  outputs of the formatter tests at `test/strn_test.c:34-59`, `80-107` and
  `129-156` are proved about them.

Conventions and decisions:

- Priority bounds: `PST_PRIORITY_VALID_BASE` is 0 and
  `PST_PRIORITY_VALID_ROOF` is `0xffff`. The header that defines them is not
  part of this model. Every lemma holds for any roof at or above the base.
- Integer division in `100 * lev / len` truncates. All its operands are
  non-negative, so Dafny's `/` agrees with C's.
- The typo comparison uses parameter names only, not aliases.
- A name `isTypo` when it has at least one suggestion.
  - `src/param_set/param_set.h:500-529` states the "return 0 if set contains
    possible typos" convention of `PARAM_SET_isTypoFailure`.
  - The tests (`src/test/command_line_test.c:100, 163`) use the opposite
    polarity. The model follows the tests.
- The command-line parser's typo classifier is a parameter of `Apply`,
  `Run` and the lemmas about them. The set passes its own,
  `CommandLine.Classifier`.
- A flag bunch such as `-ywv` stores NULL for each letter and never takes the
  next token. The tests (`src/test/command_line_test.c:111, 165-170`) require
  this. The model follows the tests over the prose of
  `src/param_set/param_set.h:581-587`.
- Scores are `real`. A task with no mandatory and no at-least-one atoms scores
  0, a case no test exercises.
- Texts are `seq<char>`. A NULL C string is `None`. Arrays of the C code
  (`buf`, `destination`) are Dafny `array<char>`.

## Model

| member | source | states |
|---|---|---|
| ParamValue.ValueList.constructor | src/test/param_value_test.c:129-136 | a new history holds no values |
| ParamValue.ValueList.Append | src/test/param_value_test.c:282-310 | a priority below the base is PST_PRIORITY_NEGATIVE and above the roof PST_PRIORITY_TOO_LARGE, both leaving the list unchanged; both bounds are accepted; an accepted value is appended last with clear check statuses |
| ParamValue.UnfilteredExtract | src/test/param_value_test.c:137-176 | values keep insertion order: the unfiltered count is the number added, match i is the i-th value added, and an index past the end is PST_PARAMETER_VALUE_NOT_FOUND |
| ParamValue.KeepEverything | src/test/param_value_test.c:164-175 | the unfiltered selection is the whole list |
| ParamValue.SelectorMeaning | src/test/param_value_test.c:177-276 | a value is selected iff it is in the list, comes from the source, and meets the selector: any priority, the exact one, the lowest or highest among that source's values, or strictly above or below a bound |
| ParamValue.KeepMembers | src/test/param_value_test.c:177-233 | a selection holds exactly the list's values that the filter accepts |
| ParamValue.PositionsMeaning | src/test/param_value_test.c:177-233 | the positions of the matches index the selection, increase strictly and miss no accepted value, so a selection is a subsequence in list order |
| ParamValue.MatchesInListOrder | src/test/param_value_test.c:177-233 | match k lies before match l in the list whenever k < l |
| ParamValue.ExtractIsMatch | src/test/param_value_test.c:164-233 | getElement on an empty list is PST_PARAMETER_EMPTY; otherwise the index picks among the matches in order, and an index equal to the count is PST_PARAMETER_VALUE_NOT_FOUND |
| ParamValue.PriorityExtremes | src/test/param_value_test.c:235-259 | the lowest and highest priorities are priorities of the list, at or below and at or above every other |
| ParamValue.OutOfRangeSelectorsAreEmpty | src/test/param_value_test.c:326-329 | with every priority in range, HIGHER_THAN the roof and LOWER_THAN the base select nothing |
| ParamValue.FirstAndLast | src/test/param_value_test.c:337-365 | INDEX_FIRST is match 0 and INDEX_LAST is the last match, under any filter |
| ParamValue.PriorityScanMeaning | src/test/param_value_test.c:414-433 | the priority scan gives the minimum for LOWEST, the maximum for HIGHEST, and for a level p the smallest priority present above p, or none |
| ParamValue.ValueList.GetPriority | src/test/param_value_test.c:367-437 | getPriority returns what the scan defines; NONE, the bound selectors and a level below the valid base (such as NOTDEFINED) are PST_INVALID_ARGUMENT; a level at or past the maximum is PST_PARAMETER_VALUE_NOT_FOUND; on failure the caller's priority is unchanged |
| ParamValue.PriorityRefusedExamples | src/test/param_value_test.c:403-408 | getPriority with NONE or with NOTDEFINED is PST_INVALID_ARGUMENT |
| ParamValue.PriorityStepExamples | src/test/param_value_test.c:414-433 | on the eight values of the test, HIGHEST is 3, LOWEST is 0, levels 0, 1 and 2 step to 1, 2 and 3, and level 3 is PST_PARAMETER_VALUE_NOT_FOUND |
| ParamValue.InvalidView | src/test/param_value_test.c:472-507 | the invalid view is the ordinary selection restricted to values with a failed check, in the same order |
| ParamValue.InvalidCountMeaning | src/test/param_value_test.c:513-523 | a value is in the invalid view iff it is selected and its format or content status is non-zero; the invalid count never exceeds the count |
| ParamValue.ValueList.CountAccepted | src/test/param_value_test.c:164-175 | the counting walk over the list returns the size of the selection |
| ParamValue.ValueList.Seek | src/test/param_value_test.c:164-233 | the walk to the k-th accepted value stops at its list position |
| ParamValue.ValueList.Find | src/test/param_value_test.c:164-233 | the position an index picks, or the error the index rules give |
| ParamValue.ValueList.GetElement | src/test/param_value_test.c:164-233 | getElement returns the selected match, as ExtractIsMatch characterises it |
| ParamValue.ValueList.GetElementCount | src/test/param_value_test.c:164-233 | getElementCount is the number of matches |
| ParamValue.ValueList.GetInvalid | src/test/param_value_test.c:472-507 | getInvalid indexes the invalid view |
| ParamValue.ValueList.GetInvalidCount | src/test/param_value_test.c:513-523 | getInvalidCount is the size of the invalid view |
| ParamValue.PopKeepsOtherMatches | src/test/param_value_test.c:625-650 | removing the k-th match removes it and only it from the selection; the other matches keep their order |
| ParamValue.KeepAround | src/test/param_value_test.c:625-650 | cutting the list around an accepted value cuts the selection around it |
| ParamValue.PositionRank | src/test/param_value_test.c:625-650 | the k-th match has exactly k matches before it in the list |
| ParamValue.ValueList.Pop | src/test/param_value_test.c:585-653 | popElement returns what getElement would and unlinks exactly that value; with no such match it fails with getElement's error and changes nothing |
| ParamValue.ValueList.Clear | test/parameter_test.c:608-643 | the history is emptied |
| ParamValue.ValueList.SetStatus | test/parameter_test.c:240-304 | records the check results of one value; every other value and field is kept |
| ParamValue.Iterator.constructor | src/test/param_value_test.c:673-697 | an iterator is bound to one value list |
| ParamValue.Iterator.Fetch | src/test/param_value_test.c:699-784 | fetch returns the same element as getElement for every source, selector and index |
| Parameter.Param.constructor | test/parameter_test.c:42-60 | PARAM_new: the given name, alias, constraints and parse option, an empty history, no hooks, the default wildcard characters and no expander, no constant print names |
| Parameter.FindSharedPriority | test/parameter_test.c:42-143 | the one-by-one search finds a repeated priority iff two values share one |
| Parameter.PriorityIn | test/parameter_test.c:42-143 | a priority is found iff some value has it |
| Parameter.Param.CheckConstraints | test/parameter_test.c:42-143 | SINGLE_VALUE is reported iff it was asked for, the parameter carries that constraint and it holds more than one value; SINGLE_VALUE_FOR_PRIORITY_LEVEL iff asked for, carried, and two values share a priority; an unconstrained parameter never reports |
| Parameter.Param.GetValue | test/parameter_test.c:144-198 | getValue is the history's getElement: PST_PARAMETER_EMPTY when empty, the selected match otherwise |
| Parameter.AddedValueIsLast | test/parameter_test.c:144-198 | a value just added is returned by get at its index and by INDEX_LAST |
| Parameter.Param.AddControl | test/parameter_test.c:225-235 | the hooks are replaced; the parse option, wildcard characters, expander and print names are kept |
| Parameter.ConvertText | test/parameter_test.c:187-198 | a NULL text is never converted (an assumption, see "## Left out"); a failed conversion carries an error |
| Parameter.AddOutcomeMeaning | test/parameter_test.c:240-304 | an add fails only on a failed conversion or a priority out of range; otherwise the converted text is stored last, whatever the checks say, with format and content statuses each set iff that check fails |
| Parameter.Param.AddValue | test/parameter_test.c:240-304 | addValue changes the history exactly as AddOutcome states |
| Parameter.InvalidCountAfterAdd | test/parameter_test.c:255-292 | an add raises the invalid count by one iff the new value failed a check |
| Parameter.HookExamples | test/parameter_test.c:225-265 | the alpha check passes "abcd" and fails "1234"; the one-character check passes "1" and fails "12"; the letters-only conversion turns "a1b2c3" into "abc", which passes |
| Parameter.TwoChecksExample | test/parameter_test.c:243-304 | "a", "1", "aa" under both checks leave two invalid values: "1" failing format, then "aa" failing content, and index 2 is PST_PARAMETER_VALUE_NOT_FOUND |
| Parameter.Letters | test/parameter_test.c:187-198 | the letters-only conversion keeps only letters and never lengthens the text |
| Parameter.ConvertedTextPassesAlpha | test/parameter_test.c:234-265 | whatever the input, the letters-only conversion produces a text that passes the alpha check |
| Parameter.Param.SetParseOption | test/parameter_test.c:422-466 | a legal option replaces the old one; an illegal combination is PST_PRSCMD_INVALID_COMBINATION and keeps the old option; the hooks, wildcard characters, expander and print names are kept |
| Parameter.Param.SetWildcardExpander | test/parameter_test.c:547-552 | the expander is installed, with "*?" when no character list is given; the parse option, hooks and print names are kept |
| Parameter.Spawn | test/parameter_test.c:474-518 | each text an expander produces becomes a new value with the source and priority of the value it replaces |
| Parameter.ExpansionSize | test/parameter_test.c:536-591 | the expanded list is the old length, less the wildcard values, plus the number produced |
| Parameter.ExpansionWithoutWildcards | test/parameter_test.c:536-591 | a list without wildcard values is left as it is and nothing is produced |
| Parameter.ExpansionKeepsRange | test/parameter_test.c:536-591 | expanded values keep their priority, so the valid range is kept |
| Parameter.ExpansionFailureSticks | test/parameter_test.c:474-518 | once the expander fails on a value, the whole expansion fails with that error |
| Parameter.ExpansionSnoc | test/parameter_test.c:536-591 | one more value appends what it becomes to the expansion before it |
| Parameter.Param.ExpandWildcards | test/parameter_test.c:536-591 | expandWildcard replaces each wildcard value in place by its expansions and keeps the rest; a failure changes nothing; no expander is PST_PARAMETER_UNIMPLEMENTED_WILDCARD |
| Parameter.ExpanderExamples | test/parameter_test.c:474-518 | the test's three-character expander produces the expansions the test expects for its four wildcard values |
| Parameter.WildcardFacts | test/parameter_test.c:596-600 | "ef?", "?x?", "?b?", "e??" hold a default wildcard character and "xxx", "yyy" do not |
| Parameter.ExpandOneExamples | test/parameter_test.c:596-600 | what each of the six test values becomes on its own |
| Parameter.WildcardExample | test/parameter_test.c:543-591 | the six values expand into the nine expected ones in the expected order, seven of them produced |
| Parameter.Param.ClearValue | test/parameter_test.c:608-643 | clearValue removes exactly the value getValue would return, or fails with its error and changes nothing |
| Parameter.ClearFirstShiftsList | test/parameter_test.c:635-640 | clearing match 0 of an unfiltered list removes the first value and makes the former second the first |
| Parameter.Param.ClearAll | test/parameter_test.c:608-643 | every value is removed |
| Parameter.Param.GetAttributes | test/parameter_test.c:733-759 | getAtr succeeds iff getValue does, with the source and priority of that value, and fails with its error otherwise |
| Parameter.DefaultPrintNameShape | test/parameter_test.c:645-677 | the default print name is "-n" for a one-character name and "--name" otherwise, and ends with the name |
| Parameter.Param.PrintName | test/parameter_test.c:645-731 | without a constant, the print name is the default one; with one, it is that constant |
| Parameter.Param.PrintNameAlias | test/parameter_test.c:645-731 | a parameter without an alias has no alias print name; otherwise it is the alias's default print name, or the constant set for it |
| Parameter.Param.SetPrintName | test/parameter_test.c:711-731 | a constant print name replaces the default, and the alias print name, parse option, hooks, wildcard characters and expander are kept |
| Parameter.Param.SetPrintNameAlias | test/parameter_test.c:692-731 | without an alias the call is PST_ALIAS_NOT_SPECIFIED and changes nothing; with one, the constant becomes the alias print name; the print name, parse option, hooks, wildcard characters and expander are kept |
| Parameter.DefaultPrintNameExamples | test/parameter_test.c:651-654 | the default print names of "string", "s", "long" and "l" are "--string", "-s", "--long" and "-l" |
| Parameter.DefaultPrintNameExample | test/parameter_test.c:645-683 | the four parameters of the test print as "--string", "-s", "--long" and "-l"; the two with aliases print their aliases as "-l" and "--long" |
| Parameter.MissingAliasExample | test/parameter_test.c:692-709 | setting an alias print name on a parameter without an alias is PST_ALIAS_NOT_SPECIFIED, and it has no alias print name |
| Parameter.ConstantPrintNameExample | test/parameter_test.c:711-731 | after the two constants are set, the parameter prints as "constant" and its alias as "alias constant" |
| Parameter.ParseOptionExample | test/parameter_test.c:428-444 | through `Param.IsParseOptionSet`: a new parameter reports its default option and no arity flag; after each accepted option (none, HAS_VALUE with a break rule, a sequence with a break rule) exactly its flags are reported and the listed others are not |
| Parameter.RefusedParseOptionExample | test/parameter_test.c:446-465 | the five illegal combinations each give PST_PRSCMD_INVALID_COMBINATION, and the option accepted before them is still reported while the other flags are not |
| Typo.SmallestDifferenceMeaning | src/param_set/param_set.h:518-523 | smdiff is the difference of some name, and no name has a smaller one |
| Typo.OfferedMembers | src/param_set/param_set.h:518-523 | a name is offered iff it is one of the names and has difference < 90 and < smdiff + 10 |
| Typo.TypoIffCloseEnough | src/param_set/param_set.h:518-523 | a token is a typo iff smdiff < 90; the name attaining smdiff is then always among the suggestions |
| Typo.SuggestionsAreClose | src/param_set/param_set.h:518-523 | a suggestion is exactly a name under 90 and within 10 of smdiff |
| Typo.LevSelf | src/param_set/param_set.h:505-516 | the edit distance of a string from itself is 0 |
| Typo.LevBounds | src/param_set/param_set.h:505-516 | the edit distance lies between the difference of the lengths and the longer length |
| Typo.LevDisjoint | src/param_set/param_set.h:505-516 | strings with no character in common are as far apart as the longer one is long |
| Typo.DifferenceAtLeast | src/param_set/param_set.h:505-516 | no difference is below -30 |
| Typo.ExactNameDifference | src/param_set/param_set.h:505-516 | the exact name has difference -30: distance 0, a substring and a prefix |
| Typo.ExactNameIsTypo | src/param_set/param_set.h:505-523 | a token equal to a name has smdiff -30 and is suggested as that name |
| Typo.FarFromName | src/param_set/param_set.h:505-516 | a token sharing no character with a name, or one that outgrows it by nine tenths of its length, is at least 90 from it |
| Typo.FarFromAll | src/param_set/param_set.h:518-523 | a token at least 90 from every name is unknown |
| Typo.DbmDifferences | src/test/command_line_test.c:255-257 | the differences of "dbm" from the six names of the array-break test: 100, 50, 66, 100 and at least 200 twice |
| Typo.DbmSmallest | src/test/command_line_test.c:255-257 | smdiff of "dbm" is 50, attained at "db" |
| Typo.DbmOffered | src/test/command_line_test.c:255-257 | only "db" is within 10 of smdiff |
| Typo.DbmSuggestsDb | src/test/command_line_test.c:255-257 | "dbm" is a typo whose only suggestion is "db" |
| ParamSet.NamesOf | src/param_set/param_set.h:505-523 | the names the typo classifier compares with are the parameters' names, in order |
| ParamSet.LookupMeaning | src/param_set/param_set.h:294-312 | lookup finds the first parameter answering to the name by name or alias, and nothing iff none does |
| ParamSet.AddTo | src/param_set/param_set.h:294-312 | an add keeps the snapshot well formed: one value list per parameter |
| ParamSet.AddUnknownName | src/param_set/param_set.h:294-312 | a name not in the set changes no parameter and goes to exactly one report list: the typo list with PST_PARAMETER_IS_TYPO iff smdiff < 90, else the unknown list with PST_PARAMETER_IS_UNKNOWN |
| ParamSet.AddKnownName | src/param_set/param_set.h:294-312 | a known name touches only its own parameter and no report list; a value failing its checks is still stored and the add succeeds |
| ParamSet.ParamSet.Add | src/param_set/param_set.h:294-312 | PARAM_SET_add changes the set exactly as AddTo states |
| ParamSet.ParamSet.constructor | src/param_set/param_set.h:133-149 | a set over built parameters with empty typo and unknown lists |
| ParamSet.ParamSet.FindParam | src/param_set/param_set.h:294-312 | the walk over the parameters finds what Lookup defines |
| ParamSet.StrAtOneName | src/param_set/param_set.h:314-338 | with one name, getStr is that parameter's getElement |
| ParamSet.StrAtIndex | src/param_set/param_set.h:314-338 | for known names holding values, at indexes the concatenation of the names' matches, and past its end is PST_PARAMETER_VALUE_NOT_FOUND |
| ParamSet.StrAtMovesOn | src/param_set/param_set.h:314-338 | an index past the first name's matches moves on to the next names, whether or not the first has values |
| ParamSet.GatheredConcat | src/param_set/param_set.h:314-338 | gathering over two name lists joins their matches |
| ParamSet.HeldZero | src/param_set/param_set.h:314-338 | the named parameters hold no value iff the held total is 0, the PST_PARAMETER_EMPTY case |
| ParamSet.HeldConcat | src/param_set/param_set.h:448-460 | the values held under two name lists add up |
| ParamSet.KnownConcat | src/param_set/param_set.h:314-338 | a name list is known iff both of its parts are |
| ParamSet.ParamSet.Collect | src/param_set/param_set.h:314-338 | the walk over the names reports whether all are known and then the gathered matches and the held total |
| ParamSet.ParamSet.GetStr | src/param_set/param_set.h:314-338 | getStr returns what StrAt defines: PST_PARAMETER_NOT_FOUND, PST_PARAMETER_EMPTY, the indexed match or PST_PARAMETER_VALUE_NOT_FOUND; the status of the match is not checked (see "## Left out") |
| ParamSet.ParamSet.GetValueCount | src/param_set/param_set.h:448-460 | the count is the number of matches of all named parameters; an unknown name is PST_PARAMETER_NOT_FOUND with count 0 |
| ParamSet.AllSetImpliesOneSet | src/param_set/param_set.h:462-482 | isSetByName implies isOneOfSetByName for a non-empty list, and an unknown name is never set |
| ParamSet.ParamSet.IsSetByName | src/param_set/param_set.h:462-471 | true iff every name is a parameter holding at least one value, valid or not |
| ParamSet.ParamSet.IsOneOfSetByName | src/param_set/param_set.h:473-482 | true iff some name is a parameter holding at least one value |
| ParamSet.ParamSet.AllKnown | src/param_set/param_set.h:425-433 | true iff every name is a parameter of the set |
| ParamSet.EmptiedMeaning | src/param_set/param_set.h:425-433 | emptying a name list empties exactly the parameters the names answer to |
| ParamSet.ClearNamedMeaning | src/param_set/param_set.h:425-433 | clearParameter succeeds iff every name is known; then each named parameter is empty and still in the set; every other parameter is kept; an unknown name changes nothing |
| ParamSet.ParamSet.ClearParameter | src/param_set/param_set.h:425-433 | clearParameter changes the set exactly as ClearNamed states, and no parameter is removed |
| ParamSet.ParamSet.EmptyNamed | src/param_set/param_set.h:425-433 | the walk over the names empties what Emptied defines |
| ParamSet.ParamSet.EmptyName | src/param_set/param_set.h:425-433 | the parameter answering to the name, if any, is emptied and no other |
| ParamSet.TargetIsGathered | src/param_set/param_set.h:435-446 | every gathered match has a target, the parameter and position holding that very value |
| ParamSet.ClearAtRemovesWhatStrAtReturns | src/param_set/param_set.h:435-446 | clearValue succeeds iff getStr with the same arguments does, and then removes exactly that value from the parameter holding it; otherwise it fails with getStr's error and changes nothing |
| ParamSet.ParamSet.ClearValue | src/param_set/param_set.h:435-446 | clearValue changes the set exactly as ClearAt states |
| ParamSet.ParamSet.FindTarget | src/param_set/param_set.h:435-446 | the walk over the names stops at the parameter and position of the wanted match |
| TaskDef.RatioOne | src/test/task_def_test.c:180-181 | a ratio is 1 exactly for equal parts and at most 1 when the part is no larger |
| TaskDef.MeritWeight | src/test/task_def_test.c:180-196 | the merit never exceeds the weight, and equals it iff the definition fits |
| TaskDef.ScoreAtMostOne | src/test/task_def_test.c:180-196 | no task scores above 1 |
| TaskDef.ScoreOne | src/test/task_def_test.c:180-181 | a task scores 1 iff every mandatory atom is set, the at-least-one group is empty or hit, and no forbidden atom is set (given some atom to score) |
| TaskDef.PickedAll | src/test/task_def_test.c:180-196 | every atom is counted as set iff all of them are set |
| TaskDef.PickedNone | src/test/task_def_test.c:180-196 | no atom is counted iff none is set |
| TaskDefExamples.ScoreTableFits | src/test/task_def_test.c:180-181 | tasks 0 and 1 score 1 |
| TaskDefExamples.ScoreTableHalves | src/test/task_def_test.c:182-184 | tasks 2, 3 and 4 score 0.5, 0 and 0.5 |
| TaskDefExamples.ScoreTableGroups | src/test/task_def_test.c:185-186 | tasks 5 and 6 score 0.666 (within 0.001) and 0.8 |
| TaskDefExamples.ScoreTableForbidden | src/test/task_def_test.c:187-188 | tasks 7 and 8 score 0.6 and 0.4 |
| TaskDefExamples.ScoreTableWide | src/test/task_def_test.c:189 | task 9 scores 0.888 (within 0.001) |
| TaskDefExamples.ScoreTableUnset | src/test/task_def_test.c:191-194 | tasks 10 to 13 score 0, 0, -0.5 and -1 |
| TaskDefExamples.ScoreTableOutweighed | src/test/task_def_test.c:195 | task 14 scores -1 |
| TaskDefExamples.ScoreTableBalanced | src/test/task_def_test.c:196 | task 15 scores 0 |
| TaskDef.MoreConsistentSwap | src/test/task_def_test.c:211-290 | swapping the two tasks swaps the answer, and no answer stays no answer |
| TaskDef.MoreConsistentMeaning | src/test/task_def_test.c:211-290 | a task at least epsilon ahead wins; no answer only for scores within epsilon and equal coverage |
| TaskDefExamples.MoreConsistentExamples | src/test/task_def_test.c:254-290 | the expected winners of the similar-consistency test, with epsilon 0.1 |
| TaskDef.RepairEmptyIffFits | src/test/task_def_test.c:329-387 | the repair report is empty iff the definition fits |
| TaskDefExamples.RepairExamples | src/test/task_def_test.c:350-373 | the repair reports of the first three tasks: unset mandatory atoms, an unmet group in full, set forbidden atoms |
| TaskDefExamples.RepairExamplesMixed | src/test/task_def_test.c:359-379 | the repair reports of the last two tasks, with all three parts |
| TaskDefExamples.IgnoredExamples | src/test/task_def_test.c:389-443 | the ignore reports name the set ignorable atoms in their order |
| TaskDef.OnesIn | src/test/task_def_test.c:464-557 | the positions of the scores equal to 1: each such position, in increasing order, and no other |
| TaskDef.ChosenOnlyOne | src/test/task_def_test.c:533-538 | the only task at 1 is the one chosen |
| TaskDef.ChosenIsOnlyOne | src/test/task_def_test.c:533-538 | a chosen task is the only task at 1 |
| TaskDef.ChosenZero | src/test/task_def_test.c:509-515 | analysis finds no consistent task iff no task scores 1 |
| TaskDef.ChosenMultiple | src/test/task_def_test.c:548-552 | analysis finds several consistent tasks iff two tasks score 1 |
| TaskDef.ChosenFits | src/test/task_def_test.c:533-538 | a task chosen from the scores fits the parameter set: its mandatory atoms are set, its at-least-one group is empty or hit and no forbidden atom is set |
| TaskDef.SetInIsSetByName | src/param_set/param_set.h:462-471 | an atom is set iff isSetByName holds for it alone |
| TaskDef.CleanedEmpties | src/test/task_def_test.c:559-601 | cleanIgnored empties what clearParameter on the same names empties |
| TaskDef.CleanedCounts | src/test/task_def_test.c:559-601 | the count is the number of distinct named parameters that held values |
| TaskDef.ScoreAll | src/test/task_def_test.c:464-557 | the loop scores every task, in task order |
| TaskDef.CleanAtom | src/test/task_def_test.c:590-596 | one ignorable atom: a parameter holding values is emptied and counted; otherwise nothing changes |
| TaskDef.CleanAll | src/test/task_def_test.c:590-596 | the loop over the atoms empties and counts as Cleaned states |
| TaskDef.TaskSet.constructor | src/test/task_def_test.c:482-489 | TASK_SET_new: no tasks, no analysis |
| TaskDef.TaskSet.Add | src/test/task_def_test.c:445-462 | the definition is appended in order and the analysis is dropped |
| TaskDef.TaskSet.Analyze | src/test/task_def_test.c:482-552 | an empty set is PST_TASK_SET_HAS_NO_DEFINITIONS; a parameter set other than the one analyzed before is PST_TASK_UNABLE_TO_ANALYZE_PARAM_SET_CHANGED; both change nothing; otherwise every task is scored against the set |
| TaskDef.TaskSet.GetConsistentTask | src/test/task_def_test.c:482-552 | no tasks, not analyzed since the last add, no task at 1, and two tasks at 1 are errors; otherwise the definition at 1 |
| TaskDef.TaskSet.CleanIgnored | src/test/task_def_test.c:559-601 | without analysis PST_TASK_SET_NOT_ANALYZED and 0; otherwise the definition's ignorable parameters are emptied as Cleaned states |
| TaskDefExamples.LifecycleZero | src/test/task_def_test.c:509-515 | no task of the first analysis scores 1 |
| TaskDefExamples.LifecycleUnique | src/test/task_def_test.c:533-538 | task 4 is the only one of the second analysis at 1, and it is chosen |
| TaskDefExamples.LifecycleMultiple | src/test/task_def_test.c:541-552 | with task 7 added, tasks 4 and 7 both score 1: PST_TASK_MULTIPLE_CONSISTENT_TASKS |
| TaskDefExamples.CleanIgnoredExample | src/test/task_def_test.c:581-596 | cleaning i, x and z of the chosen task removes three parameters' values |
| CommandLine.DropDashes | src/test/command_line_test.c:255-265 | the leading dashes are removed, and only they |
| CommandLine.BunchOf | src/test/command_line_test.c:73-101 | a bunch names one parameter per letter, and fails iff some letter names none |
| CommandLine.Recognize | src/test/command_line_test.c:73-101 | a recognized token names parameters of the set |
| CommandLine.Fresh | src/test/command_line_test.c:104-171 | the steps and state of a fresh token only name parameters of the set |
| CommandLine.Local | src/test/command_line_test.c:104-171 | the steps and state of a token in any state only name parameters of the set |
| CommandLine.Closing | src/test/command_line_test.c:104-171 | at the end of the line, a parameter still waiting stores at most one NULL |
| CommandLine.Parse | src/test/command_line_test.c:104-171 | every step of a parse names a parameter of the set |
| CommandLine.StepsFromArgv | src/test/command_line_test.c:104-171 | every value stored and every name reported comes from the tokens, a report with its leading dashes stripped |
| CommandLine.ProgramNameIgnored | src/test/command_line_test.c:73-101 | the first argument plays no part in the parse |
| CommandLine.BunchTakesNothing | src/test/command_line_test.c:104-171 | a bunch stores NULL for each letter and never takes the next token |
| CommandLine.HasValueTakesNext | src/test/command_line_test.c:117-153 | a HAS_VALUE flag takes the next token whatever it looks like, such as "-f -f" |
| CommandLine.DefaultTakesValue | src/test/command_line_test.c:104-171 | a default flag takes the next token unless it could be a parameter; then it stores NULL and the token is read afresh |
| CommandLine.FlagAwaits | src/test/command_line_test.c:104-171 | a flag that neither stores NULL at once nor collects a sequence waits for one value |
| CommandLine.SequenceTakesUntilBreak | src/test/command_line_test.c:172-250 | a sequence takes every following token up to the first it breaks at, as its values in order |
| CommandLine.RunConcat | src/test/command_line_test.c:104-171 | running two stretches of steps runs the first, then the second unless the first failed |
| CommandLine.RunPlain | src/test/command_line_test.c:138-158 | without hooks, each parameter receives, after its old values, exactly the values the steps address to it, in order, and nothing is refused |
| CommandLine.RunPlainReports | src/test/command_line_test.c:163-170 | without hooks, each unmatched name lands in its report list, in encounter order |
| CommandLine.Report | src/test/command_line_test.c:255-265 | an unmatched name is filed as a typo or an unknown, as Apply states |
| CommandLine.PerformOne | src/param_set/param_set.h:599-625 | one step is performed on the set, as Apply states |
| CommandLine.Perform | src/param_set/param_set.h:599-625 | the steps are performed in order, stopping at the first one the set refuses |
| CommandLine.ParseCmd | src/param_set/param_set.h:599-625 | PARAM_SET_parseCMD changes the set exactly as running the parse's steps does |
| CommandLineExamples.FlagsParse | src/test/command_line_test.c:73-101 | "-abc -x -e e_value": a, b, c store NULL; x stores NULL because "-e" could be a parameter; e stores "e_value" |
| CommandLineExamples.FlagsOutcome | src/test/command_line_test.c:73-101 | from six empty parameters: a, b, c, x hold NULL, e holds "e_value", d stays empty (5 values), no typos or unknowns |
| CommandLineExamples.FlagsStored | src/test/command_line_test.c:85-96 | what the parse stores in each of the six parameters |
| CommandLineExamples.FlagsReported | src/test/command_line_test.c:99-100 | the parse reports nothing, whatever the classifier |
| Strn.Fit | src/param_set/strn.c:28-61 | what PST_snprintf writes is a prefix of the text, cut to n - 1 characters, and nothing for n = 0 |
| Strn.Snprintf | src/param_set/strn.c:28-61 | the characters that fit are written then a NUL, nothing else changes, and their number is returned |
| Strn.CString | src/param_set/strn.h:41-50 | the text of a C string is everything before its first NUL |
| Strn.Strncpy | src/param_set/strn.c:63-74 | with a NULL destination or source or n = 0, false and nothing written; otherwise the first n - 1 bytes get the source padded with NULs, byte n - 1 becomes NUL, and the rest is kept |
| Strn.CopyReadsBack | src/param_set/strn.h:41-50 | reading back the copy gives the source's text cut to n - 1 characters, NUL-terminated |
| Strn.NextToken | src/param_set/strn.c:103-179 | a token's word fits the word buffer, the next position moves forward, and an indentation change has no word |
| Strn.ParseNextToken | src/param_set/strn.c:103-179 | the loop with the escape and indentation flags computes what NextToken defines |
| Strn.CollectWord | src/param_set/strn.c:131-179 | the token loop computes what Collect defines |
| Strn.SkipBlanks | src/param_set/strn.c:116-117 | blanks other than newlines are skipped, and only they |
| Strn.EndOfText | src/param_set/strn.c:116-121 | there is no token and parsing ends iff only blanks other than newlines are left |
| Strn.TokensNewline | src/param_set/strn.c:123-129 | a newline is a token of its own |
| Strn.PlainWord | src/param_set/strn.c:131-171 | a run of plain characters is one word, ending at a blank, at the end of the text, or when 1023 characters fill the word buffer |
| Strn.EscapedChar | src/param_set/strn.c:134-158 | "\\" and a backslash before a blank put that character into the word |
| Strn.ParseError | src/param_set/strn.c:137-143 | any other escape except ">" appends the parse-error message and ends parsing |
| Strn.CollectEnds | src/param_set/strn.c:137-143 | the loop ends with no way on only after a parse error, whose message it keeps |
| Strn.WordBeforeIndent | src/param_set/strn.c:146-151 | "\>" after a word ends it without consuming the "\>" |
| Strn.IndentChange | src/param_set/strn.c:146-173 | "\>" with an optional "-" and digits is an indentation change by that signed number, 0 for "\>" alone, ending at the first other character |
| Strn.TokensClose | src/param_set/strn.c:233-243 | every token list ends with the token after which parsing is over, and only there |
| Strn.Clamp | src/param_set/strn.c:245-251 | the clamped offset keeps indent + offset in [0, rowLen - 1], is the requested one when that is already inside, and 0 or rowLen - 1 at the edges |
| Strn.LayFits | src/param_set/strn.c:267-279 | a word that fits goes on the current row, after a blank when one is needed |
| Strn.LayWraps | src/param_set/strn.c:267-273 | a word that does not fit goes on a new row at the indentation plus offset |
| Strn.FlowIndent | src/param_set/strn.c:245-251 | an indentation change writes nothing and sets the clamped offset |
| Strn.FlowNewline | src/param_set/strn.c:254-265 | a newline drops the pending blank; unless the text ends right after it, it forces a line break at the indentation; at the very end it is written as it is |
| Strn.FlowPlain | src/param_set/strn.h:114-116 | on plain text the layout is the greedy fill of the text's words, with no word split |
| Strn.JoinedWords | src/param_set/strn.c:103-179 | the tokenizer gives back the words that were joined by blanks |
| Strn.FlowJoined | src/param_set/strn.h:114-116 | words joined by blanks are laid out as their greedy fill |
| Strn.FillRows | src/param_set/strn.c:267-279 | for any bound cap at least the row length that every word fits after the indentation, the greedy fill writes no row longer than cap |
| Strn.JoinedRows | src/param_set/strn.h:114-116 | the same bound for the layout of words joined by blanks |
| Strn.LayShape | src/param_set/strn.c:267-279 | laying one word keeps the row count in step with the text, and every row it adds is at most the row length or holds the indentation and (the start of) that one word |
| Strn.FillShape | src/param_set/strn.h:114-116 | the width promise of the greedy fill: every row from the starting pen on is at most the row length, or is the indentation followed by a single word that alone overruns it |
| Strn.JoinedShape | src/param_set/strn.h:114-116 | the same width promise for the layout of words joined by blanks |
| Strn.HeadColumn | src/param_set/strn.h:126-131 | in CO mode with a header of at least 3 columns, the header is the indented name followed by its delimiter, and the description starts at column headerLen with no pending blank and no indentation offset |
| Strn.Help | src/param_set/strn.h:169 | what the formatter leaves in a buffer is shorter than the buffer |
| Strn.HelpWhole | src/param_set/strn.h:169 | a text that fits the buffer comes out whole |
| Strn.Layout | src/param_set/strn.c:233-280 | the formatter's loop leaves in the buffer what fits of the layout, NUL-terminated |
| Strn.Vsnhiprintf | src/param_set/strn.c:181-284 | the refused arguments give 0 and leave the buffer alone; otherwise the buffer gets the first bufLen - 1 characters of the layout and a NUL, byte bufLen - 1 becomes NUL, and the number of characters is returned |
| Strn.Snhiprintf | src/param_set/strn.c:286-295 | PST_snhiprintf is PST_vsnhiprintf with rowLen moved behind indent and headerLen |
| StrnExamples.SampleWithShortName | test/strn_test.c:34-44 | the short-name help text: "  -i    - 1234567890", "          this is", "          sample" |
| StrnExamples.SampleWithLongName | test/strn_test.c:37-49 | the long-name help text, the delimiter on its own line under the header |
| StrnExamples.OneWord | test/strn_test.c:55-59 | a one-word description stays on the header line |
| StrnExamples.RegularText | test/strn_test.c:80-91 | RT mode at indentation 10: "1234567890", "regular", "text" each on its own row |
| StrnExamples.ShiftedText | test/strn_test.c:93-107 | "\>2", "\>", "\>4" and "\>0" move the rows after them: "regular" and "text" at 12, "extension" at 10, "a" at 14 after the newline, "to 0" at 10 |
| StrnExamples.ParseErrorText | test/strn_test.c:154-156 | "Test\k" gives ten blanks, "Test" and the parse-error message, 33 characters |
| StrnExamples.RefusedCalls | test/strn_test.c:129-148 | each invalid argument combination returns 0 and leaves the buffer untouched |

## Left out

- Memory allocation and `PST_OUT_OF_MEMORY`: every allocation succeeds. The
  same goes for the `description` buffer of `PST_vsnhiprintf`.
- Varargs formatting: `PST_snprintf` and `param_set_vsnprintf` are modelled only
  as "the text, cut to n - 1 characters" (`Fit`, `Snprintf`). The formatter
  receives its text already formatted. The `n > INT_MAX` refusal of
  `param_set_vsnprintf` is not modelled.
- Strn.Vsnhiprintf: not stated for the row counter once the buffer is full,
  because nothing written after that point shows in the buffer. Its contract
  covers the buffer contents and the return value.
- `isspace` is the "C" locale's: blank, tab, newline, vertical tab, form feed,
  carriage return. A NUL delimiter character is written like any other.
- Strn.FlowPlain: a word longer than 1023 characters is cut by the word buffer
  of `parseNextToken`. The model follows that code, which goes against the
  "words are not split" note of `src/param_set/strn.h:116`. The plain-text
  lemmas assume words below that length.
- The indentation-change outputs of `test/strn_test.c:62-78` and `109-127`
  are not worked out as examples; `93-107` is (`StrnExamples.ShiftedText`).
  Their rules are proved as general lemmas: `IndentChange`, `Clamp`,
  `FlowIndent` and `FlowNewline`.
- Strn.NextToken: the digits of "\>n" accumulate without bound, whereas the
  C code keeps them in an `int` (`src/param_set/strn.c:161`), which overflows
  at ten or more digits. No test uses more than two.
- Command-line parsing:
  - wildcard expansion during parsing is not modelled;
  - case-insensitive name matching is not modelled;
  - the "--" redirect to a chosen parameter is not modelled.
  - A sequence flag that receives no token stores NULL. No test shows this
    case.
  - `ParseCmd` stops at the first value the set refuses, which no test
    exercises.
  - The second and third scenarios of `src/test/command_line_test.c`
    (104-171, 172-270) are covered by the general lemmas. They are not worked
    out token by token; only their `dbm` typo is.
- `PARAM_SET_new`'s name-string syntax is not modelled: a set is built from
  `Param` objects.
- `PARAM_SET_readFromFile`, `read_line` and `parse_key_value_pair` are file
  I/O and are not modelled.
- The object getters (`PARAM_SET_getObj`, `getObjExtended`, the `void**`
  wrappers and `atof`) are foreign function pointers and floating point.
  Help texts, `PARAM_getName` and the print-name callbacks are left out for
  the same reason.
- The wording of reports is not modelled (`typosToString`,
  `unknownsToString`, `TASK_DEFINITION_toString`, `howToRepiar_toString`,
  `ignoredParametersToString`). Only which entries appear, and in what order,
  is modelled.
- The iterator's index caching is an internal optimisation. `Fetch` is only
  required to agree with `getElement`.
- Parameter.ConvertText: a NULL value skips the convert hook. `parameter.c`
  is not part of this model, so this is assumed. The header does not support
  it: `src/param_set/param_set.h:158-160` applies every hook except
  `extractObject` when a value is added, and says hooks must accept NULL. The
  format and content checks do receive NULL in the model (`Checked`). The
  only converter the tests show (`test/parameter_test.c:187-197`) reads its
  argument without a NULL check, so no test gives NULL to a convert hook.
- Parameter.Spawn: an expander is modelled as a function from one text to
  the texts it stands for. Each produced value takes the source and priority
  of the value it replaces, with both check statuses 0. In C an expander
  builds its own `PARAM_VAL`s. The test expander copies the source and
  priority (`test/parameter_test.c:490-500`), and that is the only shape the
  model admits.
- The wildcard expanders of `src/param_set/wildcardexpanders.c` glob the
  filesystem. An expander is a function parameter instead.
- Parameter.Param.ExpandWildcards: a failed expansion leaves the values as
  they were. `parameter.c` is not part of this model, so this all-or-nothing
  behaviour is assumed. The test expander of `test/parameter_test.c:497-507`
  inserts values one at a time, so in the C code a failure may leave earlier
  expansions or some inserted values behind.
- ParamSet.ParamSet.GetStr: `param_set.c` is not part of this model, and the
  status of the value found is not checked. A value that failed its format
  or content check is returned like any other, so the
  `PST_PARAMETER_INVALID_FORMAT` listed at
  `src/param_set/param_set.h:333-335` is never given. No test shows when
  the C code gives it.
- `PARAM_SET_isFormatOK`, `isConstraintViolation`, `isSyntaxError`,
  `IncludeSet` and the `toString` functions are not modelled.
- TaskDef.MoreConsistent: `task_def.c` is not part of this model. The
  tie-break for scores closer than epsilon (more set mandatory and
  at-least-one atoms wins, `Covered`) is inferred from the cases at
  `src/test/task_def_test.c:271-285`. "More atoms of the definition in
  total" would fit the same cases.
- TaskDef.TaskSet.Analyze: the sensitivity argument is accepted and not
  used. Only scores of exactly 1 decide the consistent task, which is what the
  expectations of `src/test/task_def_test.c:464-557` need.
