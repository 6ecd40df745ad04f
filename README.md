# Log sentences, a human approval gate and a veto check, in Dafny

This project models three small Python scripts from an agent-orchestration
repository and proves properties of each.

- `data2sentence.py` turns a structured server log record into a *log
  sentence*. It walks a fixed grammar (`status`, `method`, `path`,
  `latency_ms`, `user_agent`). Each field that is present and not `None`
  gives a `KEY_value` token, and the tokens are joined by single spaces.
  The sentence is then spliced into a fixed prompt template along with a
  human-written context.
  *Model:* `log_sentence.dfy`, module `LogSentence`. The loop is a
  method, `ServerLogToSentence`, proved equal to the specification
  function `Encode`.
- `logistics.py` is a human-in-the-loop workflow:
  - an analyst call returns a dictionary of proposals, or `{"options": []}`
    when it fails;
  - a gate (`HumanInTheLoop.get_human_validation`) reads operator lines
    until one of them rejects everything or names an option by number;
  - the main block executes the chosen plan or aborts.

  *Model:* `logistics.dfy`, module `Logistics`.
  - The operator's input is a sequence of lines. Running out of lines is
    the uncaught `EOFError`.
  - The gate's `while True` loop is a method, `GetHumanValidation`, proved
    equal to the function `Validation`. `Validation` is built from the
    per-line verdict `ClassifyLine` and the first-stopping-line function
    `FirstAccepted`.
  - The analyst is `AiLogisticsAnalyst`. Its argument is the outcome of the
    chat call and `json.loads`.
  - The main block is `LogisticsMain`.
- `logic_officer.py` runs a security review and then decides: the request
  is vetoed when `"VETO"` occurs in the upper-cased review, and the review
  is shown as the justification. Otherwise it is approved.
  *Model:* `logic_officer.dfy`, module `LogicOfficer`.

The Python built-ins these scripts rely on are modelled in `text.dfy`
(module `Text`):

- `str.upper`/`str.lower` on ASCII letters;
- `str(int)`;
- the decimal form of `int(str)`, including the whitespace `int()` skips
  around the digits and an optional sign. That whitespace is the ASCII
  space and `\t\n\v\f\r`, plus every non-ASCII character `str.isspace()`
  accepts. It is not the whole `str.isspace()` set, because `int()` does
  not skip the separators U+001C..U+001F;
- `" ".join` and its inverse `split(" ")`;
- the `in` substring test.

`wrappers.dfy` holds the `Option` and `Result` types.

`logistics_findings.dfy` (module `LogisticsFindings`) records two
discrepancies in `logistics.py`. For each it has a counterexample on the
code as written, a corrected gate and main block with the intended
properties proved, and a lemma showing that the correction changes nothing
else.

On one point the gate's messages and its guard disagree. On an analyst
failure, `ai_logistics_analyst` returns the fallback `{"options": []}`
(logistics.py:80-82). The gate's guard exists to answer "AI failed to
generate valid proposals" and return `None` (logistics.py:24-26). But
`not proposals or "options" not in proposals` is false for that fallback,
so the operator is prompted for a selection that no number can satisfy. The model follows the code
(`Logistics.FallbackOnlyRejectEnds`). The intended behaviour is the
corrected member in "## Findings".

## Model

| member | source | states |
|---|---|---|
| LogSentence.ServerLogToSentence | data2sentence.py:3-22 | The returned sentence is `Encode(logEntry)`: the tokens of the walked grammar fields, joined by single spaces. The loop invariant keeps the parts collected so far equal to the tokens of the grammar prefix already walked. |
| LogSentence.WalkStep | data2sentence.py:15-20 | One more step of the walk appends exactly the token of the next key, if it is present, to the tokens collected so far. |
| LogSentence.TokensAppend | data2sentence.py:15-20 | Walking keys `a` and then keys `b` gives the tokens of `a` followed by the tokens of `b`. The walk appends and never reorders. |
| LogSentence.PresentKeyHasToken | data2sentence.py:16-20 | Every walked key whose `get` is not `None` contributes its `KEY_value` token. |
| LogSentence.TokenComesFromPresentKey | data2sentence.py:16-20 | Every token is the `KEY_value` token of some walked key whose value is present. |
| LogSentence.TokensFollowKeyOrder | data2sentence.py:15-20 | For two present keys, the token of the earlier key comes strictly before the token of the later key. |
| LogSentence.TokensDependOnlyOnKeys | data2sentence.py:15-16 | Records that agree on what `get` returns for the walked keys give the same tokens. |
| LogSentence.CountTaggedTokens | data2sentence.py:15-20 | Assume the keys are distinct and no other key shares the upper-cased initial of `key`. Then exactly one token carries the tag `KEY_` if `key` is walked and present, and none otherwise. |
| LogSentence.GrammarFieldContributesOnce | data2sentence.py:15-20 | A grammar field that is missing or `None` contributes no token. A present field contributes exactly one token tagged with its key, and its `KEY_value` token is in the sentence exactly when it is present. |
| LogSentence.TaggedMemberCounts | data2sentence.py:20 | A token that carries a tag is counted among the parts with that tag. |
| LogSentence.TokenHasTag | data2sentence.py:20 | Every token starts with its tag: the upper-cased key followed by `_`. |
| LogSentence.SentenceFollowsGrammar | data2sentence.py:11-20 | The sentence's tokens follow the grammar order status, method, path, latency_ms, user_agent, whatever order the record's keys are in. |
| LogSentence.SentenceTokensFromGrammar | data2sentence.py:11-20 | Every token of the sentence belongs to a present grammar field. |
| LogSentence.EncodeIgnoresOtherKeys | data2sentence.py:11-16 | Setting or removing a key outside the grammar, such as `timestamp`, leaves the sentence unchanged. |
| LogSentence.EncodeDependsOnlyOnGrammar | data2sentence.py:11-17 | Records that agree on the five grammar fields have the same sentence. |
| LogSentence.TokensNonEmpty | data2sentence.py:20 | No token is empty. |
| LogSentence.JoinTokensEmptyIff | data2sentence.py:15-22 | The joined tokens of a walk are empty exactly when no walked key is present. |
| LogSentence.EncodeEmptyIff | data2sentence.py:15-22 | The sentence is `""` exactly when none of the five grammar fields is present. |
| LogSentence.EncodeEnds | data2sentence.py:22 | A non-empty sentence starts with its first token and ends with its last. |
| LogSentence.EncodeSplitsIntoTokens | data2sentence.py:22 | When no grammar value's text holds a space, splitting a non-empty sentence at single spaces gives back exactly its tokens. |
| LogSentence.JoinTokensSplit | data2sentence.py:15-22 | For any walk whose tags and values hold no space, splitting the joined tokens gives back the tokens. |
| LogSentence.GrammarTagsHaveNoSpace | data2sentence.py:11-20 | None of the five grammar tags contains a space. |
| LogSentence.GrammarTagHasNoSpace | data2sentence.py:11-20 | No grammar key's tag contains a space. |
| LogSentence.GrammarTokens | data2sentence.py:11-20 | The tokens are those of status, method, path, latency_ms and user_agent, in that order. |
| LogSentence.TokenOfParts | data2sentence.py:20 | A token is its key's tag followed by the value's text. |
| LogSentence.OtherInitialUntagged | data2sentence.py:20 | The token of a key with a different upper-cased initial never starts with another key's tag. |
| LogSentence.TagStatus | data2sentence.py:20 | `key.upper()` followed by `_` gives `STATUS_` for `status`. |
| LogSentence.TagMethod | data2sentence.py:20 | The tag of `method` is `METHOD_`. |
| LogSentence.TagPath | data2sentence.py:20 | The tag of `path` is `PATH_`. |
| LogSentence.TagLatencyMs | data2sentence.py:20 | The tag of `latency_ms` is `LATENCY_MS_`. |
| LogSentence.TagUserAgent | data2sentence.py:20 | The tag of `user_agent` is `USER_AGENT_`. |
| LogSentence.Show403 | data2sentence.py:20 | The integer 403 is formatted as `403`. |
| LogSentence.Show150 | data2sentence.py:20 | The integer 150 is formatted as `150`. |
| LogSentence.TokenStatus403 | data2sentence.py:20 | Status 403 gives the token `STATUS_403` (tag `STATUS_`, then `403`). |
| LogSentence.TokenMethodGet | data2sentence.py:20 | Method `GET` gives the token `METHOD_GET`. |
| LogSentence.TokenPathSettings | data2sentence.py:20 | The sample path gives the token `PATH_/api/v1/user/settings`. |
| LogSentence.TokenLatency150 | data2sentence.py:20 | Latency 150 gives the token `LATENCY_MS_150`. |
| LogSentence.TokenUserAgentRequests | data2sentence.py:20 | The sample user agent gives the token `USER_AGENT_Python-requests/2.25.1`. |
| LogSentence.SampleLogSentence | data2sentence.py:43-53 | The script's sample record gives `STATUS_403 METHOD_GET PATH_/api/v1/user/settings LATENCY_MS_150 USER_AGENT_Python-requests/2.25.1`. The timestamp is dropped, and the order comes from the grammar, not from the dictionary. |
| LogSentence.FullRecordSentence | data2sentence.py:11-22 | Any record whose five grammar fields equal the sample's has the sample's sentence, whatever else it holds. |
| LogSentence.PartialLogSentence | data2sentence.py:15-22 | A record with only `status` and `method` gives `STATUS_403 METHOD_GET`. Missing fields are skipped without leaving an empty token or a doubled space. |
| LogSentence.StatusMethodSentence | data2sentence.py:15-22 | Any record with those two fields and no other grammar field present has that sentence. |
| LogSentence.TwoFieldSentence | data2sentence.py:15-22 | When only status and method are present, the sentence is their two tokens with one space between them. |
| LogSentence.PromptContainsBothInOrder | data2sentence.py:24-38 | The prompt contains the human context and the log sentence verbatim, the context first, and is framed by the fixed template text. |
| Text.Upper | data2sentence.py:20 | `upper()` keeps the length and upper-cases each character. |
| Text.UpperWord | data2sentence.py:20 | A word upper-cases to another when each of its characters upper-cases to the matching one. |
| Text.Lower | logistics.py:40 | `lower()` keeps the length and lower-cases each character. |
| Text.UpperIdempotent | logic_officer.py:53 | Upper-casing twice is the same as upper-casing once. |
| Text.NatToString | data2sentence.py:20 | `str(n)` for a natural number is a non-empty string of decimal digits. |
| Text.NatToStringValue | data2sentence.py:20 | The digits `str(n)` prints denote n. |
| Text.ParseIntOfIntToString | logistics.py:43 | `int(str(n)) == n` for every integer n, negative ones included. |
| Text.ParseIntIgnoresPadding | logistics.py:43 | The whitespace `int()` skips (space, `\t\n\v\f\r`, non-ASCII spaces; not U+001C..U+001F) never changes what `int()` reads from a line. |
| Text.StripLeftSuffix | logistics.py:43 | Skipping `int()`'s leading whitespace keeps a suffix that does not start with whitespace and removes only whitespace. |
| Text.StripRightPrefix | logistics.py:43 | Skipping `int()`'s trailing whitespace keeps a prefix that does not end with whitespace and removes only whitespace. |
| Text.StripEnds | logistics.py:43 | The text `int()` reads after skipping whitespace neither starts nor ends with whitespace. |
| Text.SplitJoin | data2sentence.py:22 | `" ".join(parts).split(" ") == parts` when no part contains a space. |
| Text.JoinEnds | data2sentence.py:22 | A join starts with its first part and ends with its last. |
| Text.JoinEmptyIff | data2sentence.py:22 | A join of non-empty parts is empty exactly when there are no parts. |
| Logistics.ClassifyLine | logistics.py:39-49 | The rejection test runs first, on the untrimmed line. A `Choose` verdict's index always lies within the option list. |
| Logistics.AcceptsIff | logistics.py:40-45 | The loop returns on a line exactly when the line lower-cases to `reject` or `int()` reads a number from 1 to the option count. A choice is the number minus one. |
| Logistics.NumeralChoosesOption | logistics.py:43-47 | Typing `str(k)` selects option k when 1 <= k <= count. Otherwise it is an invalid selection, and the operator is asked again. |
| Logistics.Verdicts | logistics.py:37-49 | There is one verdict per typed line. Every chosen index is in range. |
| Logistics.VerdictAt | logistics.py:37-49 | The i-th verdict is the loop body's verdict on the i-th line. |
| Logistics.FirstAccepted | logistics.py:37-49 | Returns the first line at or after `from` on which the loop stops, every earlier line having been asked again. Returns none exactly when no such line exists. |
| Logistics.GetHumanValidation | logistics.py:15-49 | The gate's result, including how many lines it read, is `Validation(proposals, lines)`. |
| Logistics.GateDecidedByFirstAcceptedLine | logistics.py:24-49 | When the guard fails, the result is `None` and no line is read. Otherwise the gate answers the first accepted line: `"REJECTED"` for a rejection, the option's name for a choice. Every earlier line was invalid. The gate runs out of input exactly when no line is accepted. |
| Logistics.GateResultShape | logistics.py:24-45 | The gate returns `None`, `"REJECTED"` or the name of a listed option. It returns `None` exactly when the guard fails. |
| Logistics.FallbackOnlyRejectEnds | logistics.py:24-49 | The analyst's fallback passes the guard with zero options. No number is ever accepted for it. It ends only on the first line that lower-cases to `reject`, and runs out of input when no line does. |
| Logistics.MainExecutesChosenOption | logistics.py:111-115 | The plan is executed exactly when the first accepted line chose an option whose name is neither empty nor `"REJECTED"`. The executed plan is that option's name. |
| Logistics.MainRejectOrNoOptionsAborts | logistics.py:111-120 | A failing guard aborts, and so does a first accepted line of `reject`. |
| Logistics.MainFailureNeverExecutes | logistics.py:80-82 | When the analyst call fails, no plan is ever executed, whatever the operator types. |
| Logistics.SecondOfThreeAfterInvalidLines | logistics.py:37-49 | With three options, typing `5`, then `abc`, then `2` returns option 2's name after three lines, and that plan is executed. |
| Logistics.ThirdLineChooses | logistics.py:37-49 | After two lines that are not accepted, a third line naming option k makes the gate return option k's name after reading three lines. |
| Logistics.SessionVerdicts | logistics.py:43-49 | Those three lines are an invalid selection, an invalid input and a choice of the second option. |
| Logistics.AbcIsNotANumber | logistics.py:43-49 | `abc` is an invalid input: `int()` raises `ValueError`. |
| Logistics.SeparatorBeforeDigitIsNotANumber | logistics.py:43-49 | A line made of U+001C and then `2` is an invalid input: `int()` does not skip that character. |
| Logistics.PaddedNumeralChooses | logistics.py:43-45 | A line holding a space, `2` and a tab selects option 2: `int()` skips the surrounding whitespace. |
| Logistics.RejectAtOnce | logistics.py:40-41 | Typing `Reject` first returns `"REJECTED"` after one line, and the main block aborts. |
| LogicOfficer.VetoAtPosition | logic_officer.py:53 | At a position, the upper-cased review reads `VETO` exactly when the review spells "veto" there in some mix of cases. |
| LogicOfficer.VetoIffSpelledAnywhere | logic_officer.py:53-59 | The request is vetoed exactly when "veto", in any mix of cases, occurs anywhere in the review. The justification shown is the review, unchanged. Otherwise the request is approved. |
| LogicOfficer.DecisionIgnoresCase | logic_officer.py:53 | Upper-casing the review first does not change the decision. |
| LogicOfficer.VetoSurvivesContext | logic_officer.py:53 | Text added before or after a vetoing review never turns it into an approval. |
| LogicOfficer.PrescribedAnswers | logic_officer.py:53-59 | A bare `APPROVED` is approved. `VETO: ` followed by any justification is vetoed, with that whole text as the justification. |
| LogicOfficer.ApprovedHasNoVeto | logic_officer.py:53 | `APPROVED` does not contain `VETO` after upper-casing. |
| LogicOfficer.ApprovalMentioningVetoIsVetoed | logic_officer.py:53-57 | Containment decides, not the first word: `APPROVED. Nothing here to veto.` is vetoed. |
| LogicOfficer.NoVBeforeLastThree | logic_officer.py:53 | A review with no `v` or `V` before its last three characters is never vetoed. |
| LogicOfficer.UpperCharIsLetter | logic_officer.py:53 | Upper-casing gives an upper-case ASCII letter exactly from that letter, in either case. |
| LogisticsFindings.FallbackPromptsForever | logistics.py:24-26 | As written: after an analyst failure the fallback passes the guard. The lines `1` and `2` are both invalid selections, the gate never returns `None`, and the run ends when input runs out. |
| LogisticsFindings.SelectedSentinelNameIsAborted | logistics.py:114 | As written: the operator selects option 1, whose name is `"REJECTED"` or empty. The gate returns that name, and the run is aborted. |
| LogisticsFindings.FirstLineSelectsFirst | logistics.py:43-45 | With at least one option, a first line `1` returns the first option's name. |
| LogisticsFindings.CorrectedFailureAbortsAtOnce | logistics.py:24-26 | Corrected: an analyst failure reports "no valid proposals" without reading any line, and the run aborts. |
| LogisticsFindings.CorrectedExecutesIffSelected | logistics.py:114-115 | Corrected: the plan is executed exactly when the first accepted line chose an option, whatever its name, and the executed plan is that option's name. |
| LogisticsFindings.CorrectedAgreesOnOrdinaryNames | logistics.py:111-120 | For a non-empty option list whose names are neither empty nor `"REJECTED"`, the corrected and the original main block end the same way for every operator session. |
| LogisticsFindings.CorrectedFirstLineSelectsFirst | logistics.py:43-45 | Corrected: with at least one option, typing `1` selects the first option. |
| LogisticsFindings.CorrectedExecutesSentinelName | logistics.py:114-115 | Corrected: an option named `"REJECTED"` or `""` that the operator selects is executed. |

## Left out

- The agent framework (`Agent`, `Task`, `Crew`, `kickoff`) in `logic_officer.py` is left out. Its result enters the model as the string `securityResult`.
- The OpenAI chat call and `json.loads` in `ai_logistics_analyst` are left out. Their outcome enters the model as a `Result` parameter, and any exception is a `Failure`.
- The analyst's system prompt is not modelled. It is only passed to the external call.
- All `print` output is left out: banners, the option listing with `{cost_impact:,}` formatting, "Invalid selection"/"Invalid input", the execution notices and the JSON dump of the sample record.
- The multimodal prompt is built (`CreateMultimodalPrompt`) but never sent.
- `input()` is replaced by the sequence of lines the operator types.
- The prompt text `input()` shows (`(1-N)`) is output and is not modelled.
- Log values are `None`, strings, integers or booleans. Floats, lists and nested dictionaries, and their `str()` forms, are not modelled.
- Text.Upper, Text.Lower: map ASCII letters only. Python's Unicode case mapping, which can change a string's length, is not modelled. The comparisons that use them (`== 'reject'`, `"VETO" in ...`) involve ASCII letters only.
- Text.NatToString: always produces the digits. Python 3.11 and later (and 3.10.7 and later) limit int/str conversion to 4300 digits by default, and raise `ValueError` beyond it. So for an integer log value with more than 4300 digits, `f"{value}"` at data2sentence.py:20 raises, while `ServerLogToSentence` returns a sentence.
- Text.ParseInt: reads an optional sign and ASCII digits. The underscores (`1_000`) and non-ASCII decimal digits that Python's `int()` also accepts are not modelled. Nor is the 4300-digit limit: Python's `int()` raises `ValueError` on a numeral of more than 4300 digit characters, leading zeros included, while `ParseInt` reads its value. At the gate this matters in two ways. A line of more than 4300 digits that names an option through leading zeros, such as 4300 zeros followed by `1`, selects that option in the model, while Python reports "Invalid input" and asks again. Any other line of more than 4300 digits is `OutOfRange` in the model and "Invalid input" in Python; both ask again, so only the printed message differs.
- A dictionary whose `"options"` value is not a list is left out: the model's proposals always hold a list of well-formed option records. A non-empty value that is not a list, or an option missing one of its keys, makes the script raise `TypeError` or `KeyError` while printing (logistics.py:28-33). An empty string or empty object (`{"options": ""}`, `{"options": {}}`) prints nothing and has length 0, so the gate behaves exactly as for the model's empty list: no number is accepted, and only `reject` or the end of input ends it.
- JSON values of other types than a dictionary are left out.
- Option names that are not strings are left out.
- The `HumanInTheLoop` class holds no state. Its one method is modelled as the method `Logistics.GetHumanValidation`, not as a class.
- The simulated plan execution (`execute_final_plan`) only prints. It is modelled as the `Executed(plan)` outcome.

## Findings

| source | as written | input that shows it | evidently intended | confidence | as-written member | corrected member |
|---|---|---|---|---|---|---|
| logistics.py:24 | The guard `not proposals or "options" not in proposals` accepts `{"options": []}`, the analyst's own failure fallback (logistics.py:82). No number can select anything, so the gate loops until `reject` or `EOFError`. | The analyst raises. The operator types `1`, then `2`, then input ends. The result is two "Invalid selection" messages, then `EOFError`. | Report "AI failed to generate valid proposals" and return `None` when there are no options. | medium, not executed | LogisticsFindings.FallbackPromptsForever | LogisticsFindings.CorrectedFailureAbortsAtOnce |
| logistics.py:114 | `final_decision and final_decision != "REJECTED"` uses the chosen option's name to tell a selection from a rejection. | A single option named `"REJECTED"` (or `""`). The operator types `1`, and the run aborts. | Execute the option the operator selected, whatever it is called. | low, not executed | LogisticsFindings.SelectedSentinelNameIsAborted | LogisticsFindings.CorrectedExecutesSentinelName |
