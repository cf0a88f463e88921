# asciidoc-linter rule engine, modelled in Dafny

This project models the rule engine of asciidoc-linter, a linter for AsciiDoc documents.
A rule takes a document, seen as a sequence of lines, and returns a list of findings.
A finding has a message, a severity (error, warning, info), a 1-based line position,
a rule id and an optional context. The model covers:

- the finding vocabulary and the base rule (`findings.dfy`);
- the three table rules and their `|===` region scanner (`table_rules.dfy`);
- the regex-based heading rules (`heading_rules.dfy`);
- the older, character-counting heading rules (`legacy_heading_rules.dfy`);
- the block delimiter rules, whose instance keeps a map of open delimiters (`block_rules.dfy`);
- the whitespace rule, whose instance keeps a consecutive-blank counter (`whitespace_rules.dfy`);
- the image attribute rule, with its quote-aware attribute splitter (`image_rules.dfy`);
- the rule registry (`registry.dfy`);
- the lint report (`reporter.dfy`);
- the linter: it runs every rule, collects the findings and stable-sorts them by line
  (`catalog.dfy`, `linter.dfy`, `sorting.dfy`);
- the header-extracting parser (`parser.dfy`).

Shared helpers model the Python string operations the rules use: `strip`, `lstrip`,
`rstrip`, `strip(chars)`, `split` on one character, `startswith`, counting and decimal
rendering (`text.dfy`). Other helpers cover `enumerate` (`document.dfy`),
filter/flat-map (`seqs.dfy`), the remember-the-first-and-report-the-rest loop that
both revisions of the top-level heading rule share (`first_occurrence.dfy`), and `Option`/`Result` (`wrappers.dfy`).

Each instance that updates its fields is a Dafny class. Every loop in the source is a
Dafny method, except the cell loop of `extract_cells`, which only appends one cell per
piece and is written as a sequence comprehension (`TableRules.ExtractCells`). Each method
is proved equal to a specification function. The lemmas then
state what the rule promises about that function:

- which lines it flags, exactly;
- the severity and position of each finding;
- how many findings there are;
- how the state evolves over a whole document for a freshly constructed instance.

## Model

| member | source | states |
|---|---|---|
| Findings.Severity.Value | asciidoc_linter/rules/base_rules.py:7-10 | each of the three severities has a value, and looking that value up gives the severity back |
| Findings.SeverityOf | asciidoc_linter/rules/base_rules.py:7-10 | a value names a severity exactly when it is "error", "warning" or "info" |
| Findings.DefaultsAreAbsent | asciidoc_linter/rules/base_rules.py:12-23 | a position built from a line alone has no column; a finding built from message, severity and position alone has no rule id and no context |
| Findings.BaseCheck | asciidoc_linter/rules/base_rules.py:25-39 | the base rule's `check` never produces findings: it always fails with NotImplementedError and its fixed message |
| Catalog.Check | asciidoc_linter/rules/base_rules.py:29-39 | `rule.check(content)` fails exactly for the base rule and for the classes that define only `check_line` (the two block rules and the whitespace rule), always with the base class's error |
| Catalog.Characters | asciidoc_linter/rules/image_rules.py:22-27 | a `str` handed to the image rule's `check` is iterated one character at a time: one one-character entry per character |
| Registry.RuleRegistry.constructor | asciidoc_linter/rules/base.py:12 | the registry starts empty |
| Registry.RuleRegistry.RegisterRule | asciidoc_linter/rules/base.py:14-17 | the class is stored under its class name, replacing an earlier class of that name in place; a new name goes last in dictionary order; every class stays stored under its own name and every name is listed once |
| Registry.RuleRegistry.GetRule | asciidoc_linter/rules/base.py:19-22 | a registered name gives the class stored under it, whose name it is; an unknown name gives KeyError for that name |
| Registry.RuleRegistry.GetAllRules | asciidoc_linter/rules/base.py:24-27 | one class per registered name, in registration order, with pairwise distinct names; a name is registered exactly when some listed class carries it |
| Registry.RuleRegistry.CreateAllRules | asciidoc_linter/rules/base.py:29-32 | as many instances as registered classes, the i-th an instance of the i-th class |
| Reporter.LintReport.ExitCode | asciidoc_linter/reporter.py:27-29 | the exit code is 1 exactly when there is a finding, 0 exactly when there is none |
| Reporter.LintReport.Length | asciidoc_linter/reporter.py:31-35 | `len(report)` is the number of findings, and it is 0 exactly when `bool(report)` is false |
| Reporter.GroupedFindings | asciidoc_linter/reporter.py:21-25 | the loop builds the groups and the key order defined by the per-finding append |
| Reporter.GroupsAreFilters | asciidoc_linter/reporter.py:21-25 | a file has a group exactly when some finding belongs to it; its group is the findings of that file, in report order |
| Reporter.OneGroupPerFinding | asciidoc_linter/reporter.py:21-25 | every finding is in the group of its own file and in no other group |
| Reporter.KeysAreGroups | asciidoc_linter/reporter.py:21-25 | the keys are exactly the files that have a group, each listed once |
| Reporter.KeysByFirstAppearance | asciidoc_linter/reporter.py:21-25 | keys come in the order of the first finding of each file |
| Reporter.KeyFirstSeen | asciidoc_linter/reporter.py:21-25 | each key's first finding comes after the first finding of every earlier key |
| Reporter.GroupSizesSum | asciidoc_linter/reporter.py:21-25 | the group sizes add up to the number of findings |
| Linter.Outputs | asciidoc_linter/linter.py:41-44 | what each registered rule's `check` returns on the document, one output per rule, in registration order |
| Linter.AsciiDocLinter.constructor | asciidoc_linter/linter.py:14-19 | a new linter has exactly one rule: the older revision's HeadingIncrementationRule |
| Linter.AsciiDocLinter.RegisterRule | asciidoc_linter/linter.py:21-23 | the rule is appended after the rules registered before it |
| Linter.AsciiDocLinter.Lint | asciidoc_linter/linter.py:29-47 | the loop runs each rule's `check` once, in order, and stops at the first exception; its result is the collected findings sorted by line |
| Linter.ErrorPropagates | asciidoc_linter/linter.py:41-44 | once a rule has raised, the run has failed with that error |
| Linter.CollectedOk | asciidoc_linter/linter.py:41-44 | the run succeeds exactly when every rule's `check` succeeds |
| Linter.CollectedError | asciidoc_linter/linter.py:41-44 | a failed run reports the error of the first rule that failed, all rules before it having succeeded |
| Linter.CollectedConcatenates | asciidoc_linter/linter.py:39-44 | when every rule succeeds, the collected findings are the rule outputs laid end to end in registration order |
| Linter.LintSpec | asciidoc_linter/linter.py:39-47 | a successful lint gives a permutation of the concatenated rule outputs, non-decreasing in line, with the findings of each line in emission order |
| Sorting.SortSorted | asciidoc_linter/linter.py:47 | the sorted findings are non-decreasing in line |
| Sorting.SortPermutes | asciidoc_linter/linter.py:47 | sorting keeps every finding, as many times as it occurs |
| Sorting.SortStable | asciidoc_linter/linter.py:47 | the findings of any one line keep their relative order |
| Sorting.InsertSorted | asciidoc_linter/linter.py:47 | inserting into a sorted list keeps it sorted |
| Sorting.InsertOnLine | asciidoc_linter/linter.py:47 | an inserted finding goes after the findings already present on its line |
| Parser.Parse | asciidoc_linter/parser.py:43-51 | the loop emits the headers defined line by line: a line starting with `=` gives a Header of its 1-based number, its unmodified text and its `=` run length |
| Parser.LevelIsRun | asciidoc_linter/parser.py:49 | `len(line) - len(line.lstrip("="))` is the length of the leading `=` run |
| Parser.HeadersSound | asciidoc_linter/parser.py:47-50 | every header comes from a line starting with `=`: its number is that line's 1-based index, its content the unmodified line, its level the `=` run length, at least 1; an all-`=` line is not filtered out |
| Parser.HeadersComplete | asciidoc_linter/parser.py:47-50 | every line starting with `=` gives a header |
| Parser.HeadersIncreasing | asciidoc_linter/parser.py:47 | header line numbers are strictly increasing |
| BlockRules.NextOpenSpec | asciidoc_linter/rules/block_rules.py:30-39 | a line that does not strip to one of the eight delimiters leaves the open delimiters unchanged; a delimiter that is open is closed, and any other one is opened at the line's 0-based number |
| BlockRules.UnterminatedLineSpec | asciidoc_linter/rules/block_rules.py:28-59 | at most one finding, an ERROR of BLOCK001 at `line_number + 1`; it is given exactly for an opening delimiter that no later context line strips to |
| BlockRules.UnterminatedBlockRule.constructor | asciidoc_linter/rules/block_rules.py:14-26 | no delimiter is open |
| BlockRules.UnterminatedBlockRule.CheckLine | asciidoc_linter/rules/block_rules.py:28-59 | the open delimiters are toggled as above, and the findings are those of the look-ahead, computed from the delimiters open before the call |
| BlockRules.CheckUnterminated | asciidoc_linter/rules/block_rules.py:28-59 | a fresh instance driven over every line, with the document as context, gives the findings of the specification |
| BlockRules.OpenParity | asciidoc_linter/rules/block_rules.py:33-39 | after i lines, a delimiter is open exactly when an odd number of them strip to it; it was then opened by the last of them |
| BlockRules.FlaggedIffLastOfOdd | asciidoc_linter/rules/block_rules.py:33-57 | over a whole document, a line is flagged exactly when it is the last occurrence of its delimiter and that delimiter occurs an odd number of times |
| BlockRules.FlaggedOncePerDelimiter | asciidoc_linter/rules/block_rules.py:33-57 | two flagged lines have different delimiters, so delimiters are tracked independently and each is reported at most once |
| BlockRules.UnterminatedFindingsExact | asciidoc_linter/rules/block_rules.py:28-59 | the document's findings are exactly the errors of the flagged lines |
| BlockRules.SpacingLineSpec | asciidoc_linter/rules/block_rules.py:77-113 | a closing delimiter gets one WARNING, anchored at the following line, exactly when that line exists and is neither blank nor a heading. An opening delimiter at line_number > 0 gets one WARNING on its own line exactly when the previous line is neither blank nor a heading. A missing neighbour exempts the delimiter. The call fails only on the out-of-range index |
| BlockRules.BlockSpacingRule.constructor | asciidoc_linter/rules/block_rules.py:69-75 | no delimiter is open |
| BlockRules.BlockSpacingRule.CheckLine | asciidoc_linter/rules/block_rules.py:77-113 | returns the findings above and toggles the open delimiters; when the call raises, the map is left as it was |
| BlockRules.CheckSpacing | asciidoc_linter/rules/block_rules.py:77-113 | a fresh instance driven over every line gives the findings of the specification |
| BlockRules.SpacingInDocument | asciidoc_linter/rules/block_rules.py:81-111 | over a whole document, the first, third, ... occurrence of a delimiter (an even number of occurrences before it) opens a block and is checked against the previous line; the second, fourth, ... (an odd number before it) closes one and is checked against the next line |
| WhitespaceRules.WhitespaceRule.constructor | asciidoc_linter/rules/whitespace_rules.py:14-16 | the counter starts at 0 |
| WhitespaceRules.WhitespaceRule.CheckLine | asciidoc_linter/rules/whitespace_rules.py:18-137 | the counter goes up on a blank line and back to 0 on any other line; the findings are those of the specification of the line |
| WhitespaceRules.CheckContent | asciidoc_linter/rules/whitespace_rules.py:37-137 | the per-line checks after the counter give the findings of the specification |
| WhitespaceRules.CheckMarker | asciidoc_linter/rules/whitespace_rules.py:38-52 | the list-marker check |
| WhitespaceRules.CheckHeading | asciidoc_linter/rules/whitespace_rules.py:79-121 | the section-title checks, with the level loop; they fail on an out-of-range previous line |
| WhitespaceRules.CheckAdmonition | asciidoc_linter/rules/whitespace_rules.py:124-135 | the admonition check; it fails on an out-of-range previous line |
| WhitespaceRules.WhitespaceLineSpec | asciidoc_linter/rules/whitespace_rules.py:18-137 | the call fails exactly on an out-of-range index; otherwise every finding is a WS001 WARNING at `line_number + 1`, and there is none exactly when no check applies (well-spaced lines give nothing) |
| WhitespaceRules.LocalPartsSpec | asciidoc_linter/rules/whitespace_rules.py:22-76 | the blank check fires exactly on a blank line with the counter already at 2 or more; the marker check on a `*`, `-` or `.` not followed by a space; the trailing check exactly when `rstrip` changes the line; the tab check exactly when the line holds a tab |
| WhitespaceRules.TrailingIff | asciidoc_linter/rules/whitespace_rules.py:55 | `line.rstrip() != line` exactly when the line ends with whitespace |
| WhitespaceRules.HeadingPartSpec | asciidoc_linter/rules/whitespace_rules.py:79-121 | a line starting with `=` is flagged when its `=` run is followed by a character other than a space, when the previous line is non-blank, or when the next line is non-blank; the first and last lines are exempt on their missing side |
| WhitespaceRules.AdmonitionPartSpec | asciidoc_linter/rules/whitespace_rules.py:124-135 | an admonition line gets one warning exactly when it has a non-blank previous line |
| WhitespaceRules.AdmonitionFromIff | asciidoc_linter/rules/whitespace_rules.py:124-125 | the `any(...)` over the five markers holds exactly when the stripped line starts with one of them |
| WhitespaceRules.CheckWhitespace | asciidoc_linter/rules/whitespace_rules.py:18-137 | a fresh instance driven over every line gives the findings of the specification |
| WhitespaceRules.CountIsBlankRun | asciidoc_linter/rules/whitespace_rules.py:22-35 | for a fresh instance, the counter after i lines is at least m exactly when the last m of those lines are blank |
| WhitespaceRules.TooManyIff | asciidoc_linter/rules/whitespace_rules.py:22-33 | a line gets "Too many consecutive empty lines" exactly when it and the two lines before it are blank: it is the third or later blank line of a run |
| WhitespaceRules.CountBounded | asciidoc_linter/rules/whitespace_rules.py:16-35 | the counter never exceeds the number of lines seen |
| ImageRules.ImageAttributesRule.constructor | asciidoc_linter/rules/image_rules.py:17-20 | current line 0, empty context |
| ImageRules.ImageAttributesRule.Check | asciidoc_linter/rules/image_rules.py:22-27 | the findings of every line in order; the fields are left at the last line |
| ImageRules.ImageAttributesRule.CheckLine | asciidoc_linter/rules/image_rules.py:135-170 | sets the current line and context, then gives the block image's findings or those of every inline image |
| ImageRules.ImageAttributesRule.CheckInline | asciidoc_linter/rules/image_rules.py:163-168 | the findings of each inline match, in order |
| ImageRules.ImageAttributesRule.CheckImage | asciidoc_linter/rules/image_rules.py:155-159 | the path findings followed by the attribute findings of one image |
| ImageRules.ImageAttributesRule.CheckImagePath | asciidoc_linter/rules/image_rules.py:29-52 | the path check, read from the current line and context fields |
| ImageRules.ImageAttributesRule.CheckAttributes | asciidoc_linter/rules/image_rules.py:54-94 | the attribute checks, read from the current line and context fields |
| ImageRules.ImageAttributesRule.ParseAttributes | asciidoc_linter/rules/image_rules.py:96-133 | the character loop and the parts loop compute the attribute map of the specification |
| ImageRules.PathFindingsSpec | asciidoc_linter/rules/image_rules.py:29-52 | a path starting with `http://`, `https://` or `ftp://` gives nothing; any other path gives one WARNING exactly when the stripped path is not an existing file |
| ImageRules.AttributeFindingsSpec | asciidoc_linter/rules/image_rules.py:54-94 | missing or empty alt text gives one WARNING; otherwise alt text shorter than 5 characters gives one INFO instead; a block image with no attributes gets one more WARNING |
| ImageRules.AttributesOfEmpty | asciidoc_linter/rules/image_rules.py:100-103 | text that is empty after stripping `[` and `]` parses to no attributes |
| ImageRules.ScanQuotes | asciidoc_linter/rules/image_rules.py:110-113 | the loop is inside quotes exactly when it has read an odd number of `"` |
| ImageRules.SplitWithoutSeparator | asciidoc_linter/rules/image_rules.py:105-121 | text without a comma outside quotes is one part, so `title="Complex, title with, commas"` stays whole |
| ImageRules.SplitAtFirstSeparator | asciidoc_linter/rules/image_rules.py:105-121 | the first comma outside quotes ends the first part, stripped, and the rest is split the same way |
| ImageRules.AttrsKeys | asciidoc_linter/rules/image_rules.py:123-131 | a key is set exactly when some part sets it. A part with `=` sets the stripped text before its first `=`. The part at index 0, when it has no `=`, sets `alt`. Other parts without `=` set nothing |
| ImageRules.AttrsValue | asciidoc_linter/rules/image_rules.py:123-131 | a key's value comes from the last part that sets it; a key=value part gives the text after the first `=`, stripped and with its `"` removed |
| ImageRules.BlockMatchSpec | asciidoc_linter/rules/image_rules.py:151-153 | the block form matches exactly a stripped line starting with `image::` and a character other than `[`. The path is the run up to the first `[`. The bracket group, if present, follows the path directly and ends at a `]` on the same line |
| ImageRules.BlockMatchGreedy | asciidoc_linter/rules/image_rules.py:151-153 | the greedy bracket group closes at the last `]` before the next line feed, so no `]` lies between its end and that line feed; it is absent only when no `]` follows the `[` before that line feed |
| ImageRules.InlineAtSpec | asciidoc_linter/rules/image_rules.py:163 | an inline match has a non-empty path with no `[` that runs up to the first `[` or to the end of the text. The lazy bracket group is taken exactly when a `]` follows that `[` on the same line; it then ends at the first such `]`, holds no `]`, and its text is exactly the characters between the brackets |
| ImageRules.InlineScanFirst | asciidoc_linter/rules/image_rules.py:163 | the scan finds the first place an inline image can start, and resumes where that match ends |
| ImageRules.InlineScanNone | asciidoc_linter/rules/image_rules.py:163 | with no place an inline image can start, there is no match |
| ImageRules.InlineScanSound | asciidoc_linter/rules/image_rules.py:163 | every match starts where an inline image can start, and is the match there |
| ImageRules.InlineScanDisjoint | asciidoc_linter/rules/image_rules.py:163 | matches do not overlap: each ends before the next starts |
| ImageRules.BlockExcludesInline | asciidoc_linter/rules/image_rules.py:150-160 | a line holding a block image gives that image's findings only, and is not scanned for inline images |
| ImageRules.InlineIndependent | asciidoc_linter/rules/image_rules.py:162-170 | otherwise a finding of the line comes from exactly one inline image, and every inline image contributes all its findings |
| ImageRules.BareBlockImage | asciidoc_linter/rules/image_rules.py:83-92 | a block image with a missing file and no attributes, such as `image::test.png[]`, gets three warnings |
| HeadingRules.MatchFormat | asciidoc_linter/rules/heading_rules.py:21-29 | `^(=+)(\s*)(.*)$` matches exactly a line starting with `=` |
| HeadingRules.MatchFormatSpec | asciidoc_linter/rules/heading_rules.py:21-32 | the three groups split the line into a maximal `=` run, the maximal whitespace after it, and a text that does not start with whitespace |
| HeadingRules.FormatLine | asciidoc_linter/rules/heading_rules.py:27-58 | a line not starting with `=` gives no finding, and no line gives more than two |
| HeadingRules.FormatLineAt | asciidoc_linter/rules/heading_rules.py:37-55 | every finding is HEAD002 at `line_num + 1` |
| HeadingRules.FormatLineMissingSpace | asciidoc_linter/rules/heading_rules.py:37-43 | for a line starting with `=`, the ERROR "Missing space after <run>" naming the whole `=` run is given exactly when the run is not followed by whitespace, and it is the only ERROR of the line |
| HeadingRules.FormatLineNothingElse | asciidoc_linter/rules/heading_rules.py:27-58 | every finding of a line is either the missing-space error naming the `=` run or the case warning |
| HeadingRules.FormatLineCase | asciidoc_linter/rules/heading_rules.py:46-56 | the case warning is given exactly when the text after the run and its whitespace starts with a lowercase letter; empty text never gets it |
| HeadingRules.CaseFindingOfMatch | asciidoc_linter/rules/heading_rules.py:46-56 | the same, in the source's terms: the text group is non-empty and its first word starts lowercase |
| HeadingRules.FormatLineAllEquals | asciidoc_linter/rules/heading_rules.py:21-43 | an all-`=` line such as `====` gets exactly one "Missing space after ====" error |
| HeadingRules.CheckFormat | asciidoc_linter/rules/heading_rules.py:60-75 | the loop gives every line's findings, in order |
| HeadingRules.FormatFindingsShape | asciidoc_linter/rules/heading_rules.py:60-75 | at most two findings per line, each on a document line starting with `=` |
| HeadingRules.HeadingLevel | asciidoc_linter/rules/heading_rules.py:86-99 | `^(=+)\s` matches exactly when an `=` run is followed by whitespace; the level is the run's length; an all-`=` line never matches |
| HeadingRules.GetHeadingLevels | asciidoc_linter/rules/heading_rules.py:92-101 | the loop collects the headings of the specification |
| HeadingRules.HeadingsExact | asciidoc_linter/rules/heading_rules.py:92-101 | every heading is a matching document line with its level, in increasing line order, and every matching line is a heading |
| HeadingRules.CheckHierarchy | asciidoc_linter/rules/heading_rules.py:103-130 | the loop, threading the current level, gives the findings of the specification |
| HeadingRules.SkipFindingsIff | asciidoc_linter/rules/heading_rules.py:118-128 | a finding is given exactly for each heading whose level exceeds the previous heading's level by more than one, flagged or not; a level decrease is never flagged |
| HeadingRules.HierarchyFindingsSpec | asciidoc_linter/rules/heading_rules.py:114-128 | with at most one heading there is no finding; the first heading is never flagged; every finding is a HEAD001 error on a skipping heading |
| HeadingRules.CheckTopLevel | asciidoc_linter/rules/heading_rules.py:147-172 | the loop, remembering the first top-level heading, gives the findings of the specification |
| FirstOccurrence.FirstSpec | asciidoc_linter/rules/heading_rules.py:159-162 | the remembered heading is absent exactly when no line is top-level; otherwise it is a top-level line with no top-level line before it |
| FirstOccurrence.FirstStable | asciidoc_linter/rules/heading_rules.py:159-162 | once a first top-level heading is remembered, later lines never replace it |
| FirstOccurrence.LaterCount | asciidoc_linter/rules/heading_rules.py:159-170 | `t` top-level headings give `t - 1` findings, and none when `t` is 0 |
| FirstOccurrence.LaterCiteFirst | asciidoc_linter/rules/heading_rules.py:161-170 | every finding is about a top-level heading after the remembered first one, and cites that first one |
| FirstOccurrence.LaterComplete | asciidoc_linter/rules/heading_rules.py:159-170 | every top-level heading after the first one gets a finding, and that finding cites the first one |
| HeadingRules.MultipleTopLevelSpec | asciidoc_linter/rules/heading_rules.py:159-170 | all but the first top-level heading are flagged with one ERROR. Each message cites the first heading's 1-based line and stripped text. Conversely, every top-level heading after the first gets exactly that finding |
| LegacyHeadingRules.CountLevel | asciidoc_linter/heading_rules.py:37-42 | the counting loop gives the length of the leading `=` run |
| LegacyHeadingRules.UnderlineTestsAgree | asciidoc_linter/heading_rules.py:34-106 | for a line starting with `=`, the two underline tests agree: the stripped line is all `=` exactly when the run covers the stripped line |
| LegacyHeadingRules.ConsideredRun | asciidoc_linter/heading_rules.py:30-42 | on a considered line the `=` run ends before the stripped line does |
| LegacyHeadingRules.FormatLine | asciidoc_linter/heading_rules.py:29-70 | lines that are empty, do not start with `=`, or are underlines give nothing; any other line gives at most two HEAD002 findings at its 1-based number |
| LegacyHeadingRules.FormatLineMissingSpace | asciidoc_linter/heading_rules.py:50-57 | the "Missing space" error is given exactly when the character after the run is not a space, and it is the only error |
| LegacyHeadingRules.FormatLineCaseIff | asciidoc_linter/heading_rules.py:29-72 | the uppercase warning is given exactly on a considered line whose text after the `=` run, stripped, has a first word starting with a lowercase letter; besides it, a line can only get the missing-space error |
| LegacyHeadingRules.FormatLineLowercaseNoSpace | asciidoc_linter/heading_rules.py:44-70 | a run directly followed by a lowercase letter gives the missing-space error and the case warning, in that order |
| LegacyHeadingRules.CheckFormatLine | asciidoc_linter/heading_rules.py:29-70 | the per-line body, with its counting loop, gives the findings of the specification |
| LegacyHeadingRules.CheckFormat | asciidoc_linter/heading_rules.py:25-72 | the loop gives every line's findings, in order |
| LegacyHeadingRules.FormatFindingsTwoLines | asciidoc_linter/heading_rules.py:28 | on two lines, the first line's findings come before the second's, at lines 1 and 2 |
| LegacyHeadingRules.RunThenLowercase | asciidoc_linter/heading_rules.py:50-70 | `=level 1` and `==level 2` each get a "Missing space" error and an "uppercase" warning, so together four findings |
| LegacyHeadingRules.FormatFindingsShape | asciidoc_linter/heading_rules.py:25-72 | at most two findings per line, each on a considered line at its 1-based number |
| LegacyHeadingRules.RevisionsDisagreeOnUnderlines | asciidoc_linter/heading_rules.py:34-35 | an all-`=` line gets nothing from this revision and one "Missing space" error from the regex revision |
| LegacyHeadingRules.CheckIncrementation | asciidoc_linter/heading_rules.py:88-128 | the loop, threading the current level, gives the findings of the specification |
| LegacyHeadingRules.IncrementFindingsSnoc | asciidoc_linter/heading_rules.py:110-125 | one more title adds a finding exactly when a baseline exists and its level exceeds the baseline by more than one |
| LegacyHeadingRules.TitlesExact | asciidoc_linter/heading_rules.py:93-107 | the titles are exactly the lines starting with `=` whose run does not cover the stripped line, with their 1-based number and run length |
| LegacyHeadingRules.IncrementFindingsIff | asciidoc_linter/heading_rules.py:110-126 | the first title is the baseline and never flagged; a later title is flagged exactly when its level exceeds the previous title's by more than one |
| LegacyHeadingRules.CheckTopLevel | asciidoc_linter/heading_rules.py:144-181 | the loop gives the findings of the specification |
| LegacyHeadingRules.TopLevelFindingOfDoc | asciidoc_linter/heading_rules.py:165-179 | the remembered heading is the first considered level-1 line of the document, and a finding on a later level-1 line cites its 1-based line and its text after the `=`, stripped |
| LegacyHeadingRules.MultipleTopLevelSpec | asciidoc_linter/heading_rules.py:165-179 | `t` level-1 headings give `t - 1` errors; each is on a later level-1 heading and cites the first one's 1-based line and its text after the `=`, stripped. Conversely, every level-1 heading after the first gets exactly that error |
| LegacyHeadingRules.NoHeadingsNoFindings | asciidoc_linter/heading_rules.py:25-181 | a document without considered lines, underlines included, gives no finding from any of the three rules |
| TableRules.ExtractTableLines | asciidoc_linter/rules/table_rules.py:28-61 | the two-state loop gives the tables of the specification |
| TableRules.TablesCaptureExactlyRegions | asciidoc_linter/rules/table_rules.py:40-59 | the tables laid end to end are exactly the lines that lie in a `\|===` region, in order: no line outside one is captured |
| TableRules.TablesSegmented | asciidoc_linter/rules/table_rules.py:44-59 | every table is a contiguous stretch of the document. It starts with a `\|===` line and has no other one inside. Every table but an unclosed final one ends with a `\|===` line |
| TableRules.FindingsInRegions | asciidoc_linter/rules/table_rules.py:126-131 | a per-table check that reports on its table's lines reports, over the document, inside table regions only |
| TableRules.PipeOffsetsSpec | asciidoc_linter/rules/table_rules.py:22-74 | the cell offsets of a row are the offsets of its `\|` characters, increasing |
| TableRules.MisalignedAgainst | asciidoc_linter/rules/table_rules.py:68-85 | against the first row's offsets, a row is flagged exactly when some row with cells differs, and it is the first such row |
| TableRules.AlignedIff | asciidoc_linter/rules/table_rules.py:68-85 | there is no alignment finding exactly when all rows with cells share their offsets; blank rows are ignored |
| TableRules.MisalignedIsFirstMismatch | asciidoc_linter/rules/table_rules.py:68-85 | the flagged row is the first whose offsets differ from those of the first row with cells |
| TableRules.CheckColumnAlignment | asciidoc_linter/rules/table_rules.py:63-86 | the loop with its early exit gives at most one finding, the one of the specification |
| TableRules.HeaderFrom | asciidoc_linter/rules/table_rules.py:93-97 | the header row is the first inner line holding a `\|` |
| TableRules.HeaderSeparatorIff | asciidoc_linter/rules/table_rules.py:99-110 | at most one WARNING. It is given exactly when the line after the header row is not the table's last line and is non-blank, and it sits on that line |
| TableRules.CheckHeaderSeparator | asciidoc_linter/rules/table_rules.py:88-112 | the loop gives the finding of the specification |
| TableRules.CheckFormat | asciidoc_linter/rules/table_rules.py:114-133 | both checks on every table, in order |
| TableRules.FormatFindingsShape | asciidoc_linter/rules/table_rules.py:114-133 | every finding is a TABLE001 WARNING inside a table region, at most two per table |
| TableRules.CountColumnsIsSplitCount | asciidoc_linter/rules/table_rules.py:153-160 | a `\|===` line has 0 columns; any other line as many as the pieces of `split("\|")` after the first, which is its count of `\|` |
| TableRules.ColumnsOfContentRow | asciidoc_linter/rules/table_rules.py:173-175 | the column count of a content row is its number of `\|` |
| TableRules.ColumnErrorsSound | asciidoc_linter/rules/table_rules.py:173-186 | every column error names a later content row whose count differs from the first content row's |
| TableRules.ColumnErrorsComplete | asciidoc_linter/rules/table_rules.py:173-186 | every such row gets its error |
| TableRules.ColumnErrorsStart | asciidoc_linter/rules/table_rules.py:177-178 | the first content row sets the expected count and is never flagged |
| TableRules.ConsistentColumnsIff | asciidoc_linter/rules/table_rules.py:173-186 | there is no ERROR exactly when all content rows have the same count |
| TableRules.EmptyTableIff | asciidoc_linter/rules/table_rules.py:188-195 | a table without content rows gets exactly one finding, the "Empty table" WARNING at the opening line's number + 1; it is given only then |
| TableRules.StructureFindingsAtLines | asciidoc_linter/rules/table_rules.py:162-197 | every finding is TABLE002 on a line of its table |
| TableRules.CheckTableStructure | asciidoc_linter/rules/table_rules.py:162-197 | the loop gives the findings of the specification |
| TableRules.CheckStructure | asciidoc_linter/rules/table_rules.py:199-218 | the structure check on every table, in order |
| TableRules.StructureFindingsInTables | asciidoc_linter/rules/table_rules.py:199-218 | every finding is TABLE002 inside a table region |
| TableRules.ExtractCells | asciidoc_linter/rules/table_rules.py:237-260 | one cell per `\|` of a non-marker row; every prefix is "", "a" or "l" |
| TableRules.ExtractCellsSpec | asciidoc_linter/rules/table_rules.py:243-258 | a `\|===` line has no cells. Otherwise a piece gets prefix a or l only when, stripped, it starts with that letter and is longer than it. The content is then the stripped rest, otherwise the whole stripped piece |
| TableRules.CheckCellContent | asciidoc_linter/rules/table_rules.py:262-275 | a finding exactly for non-empty content starting, after optional whitespace, with `*` or `-`, in a cell without the a or l prefix; it is a WARNING at `line_num + 1` |
| TableRules.CheckRowCells | asciidoc_linter/rules/table_rules.py:294-307 | the per-row loop with its `found_list` flag gives one warning when some cell holds an undeclared list |
| TableRules.CheckContent | asciidoc_linter/rules/table_rules.py:277-309 | every inner row of every table, in order |
| TableRules.ContentFindingsShape | asciidoc_linter/rules/table_rules.py:277-309 | every finding is a TABLE003 WARNING inside a table region, at most one per row |
| TableRules.OneFindingPerListRow | asciidoc_linter/rules/table_rules.py:300-307 | exactly one warning per row holding an undeclared list, however many such cells it has |

## Left out

- The Python regex engine is not modelled. Each pattern the rules use has a hand-written
  recogniser instead: the heading patterns, the cell pattern, the list pattern and the
  two image patterns. The unused `cell_pattern` of TableStructureRule is not modelled.
- `str.splitlines` and the `isinstance` branches that turn a dict, a `str` or a list
  into lines are not modelled. Rules receive the lines. The older heading revision
  receives 1-based numbers, as its `enumerate(..., 1)` gives.
- Whitespace is a fixed character set: the characters `str.isspace` accepts. `str.islower`
  is approximated by the ASCII letters a to z.
- `os.path.isfile` is a filesystem query. It becomes a set of existing paths, a parameter
  of the image rule.
- Header objects handed to the image rule (`hasattr(line, "content")`) are not modelled.
  The model handles text lines only.
- The image rule's `check_line` takes a `context` argument it never reads. It is left
  out.
- Finding: the model gives findings a `file` field, absent unless set. `reporter.py`
  groups findings by `finding.file`, but the `Finding` dataclass in
  `asciidoc_linter/rules/base_rules.py` has no such field. In the source,
  `grouped_findings` on a non-empty report therefore raises AttributeError.
- Lines are assumed to hold no line feed, as `str.splitlines` guarantees.
  HeadingRules.MatchFormat accepts `=a\nb`, which `^(=+)(\s*)(.*)$` rejects because `.`
  stops at a line feed. The regular-expression revision's `check` also accepts a list
  of strings, and such strings may hold line feeds. The image recognisers do stop the
  bracket group at a line feed.
- Positions hold unbounded integers. Line numbers passed to `check_line` are naturals:
  a negative line number, which Python would index from the end, is not modelled.
- Linter.AsciiDocLinter.constructor builds the linter without a reporter. In the source,
  `ConsoleReporter()` (`asciidoc_linter/linter.py:16`) lacks its required `enable_color`
  argument, so `AsciiDocLinter()` raises TypeError before any rule is registered.
- Linter.AsciiDocLinter.Lint stops at the sorted findings. The formatting step
  (`self.reporter.report`) calls a method that does not exist, and `ConsoleReporter()`
  lacks its required argument. `set_reporter` is left out with the reporters.
- Rendering of the report is not modelled: ConsoleReporter, JsonReporter and HtmlReporter
  in `asciidoc_linter/reporter.py`. The CLI (`asciidoc_linter/cli.py`) and the scripts
  and packaging files are not part of this model either.
- The rule modules import `Finding`, `Severity` and `Position` from `.base`
  (for example `asciidoc_linter/rules/heading_rules.py:7`), but
  `asciidoc_linter/rules/base.py` defines none of them. That file imports `Rule` from
  the package it belongs to (`asciidoc_linter/rules/base.py:7`), which is circular, so
  the `rules` package fails at import. The model takes these types from
  `asciidoc_linter/rules/base_rules.py`, where they are defined.
- Registry.RuleRegistry: the source keeps `_rules` as a class-level dictionary shared by
  every user. The model keeps it in one registry object.
- The rules' `description` properties are not modelled; they are constant strings.
- The block rules' example of three blocks (one closed example block, one unclosed
  listing block, one closed sidebar) has no lemma of its own. FlaggedIffLastOfOdd and
  FlaggedOncePerDelimiter give its one finding for any such document.
- Some of the repository's tests expect behaviour the code does not have. The model
  follows the code:
  - tests that expect `a|` written before a pipe to declare a cell;
  - tests that use `LintError`, `lint_string` and `lint_file`;
  - `test_undeclared_list` (`tests/rules/test_table_rules.py:220-243`). It expects one
    finding for two rows that each hold an undeclared list. The code gives one per row,
    so two (TableRules.OneFindingPerListRow).
