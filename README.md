# Chain-of-Thought Workflow Simulator, modelled in Dafny

The simulator is a one-page Streamlit app. It sends a prompt to a chat model
through one of two fixed workflows:

- **Workflow A (code issue):** the model returns three scored candidate
  solutions, a recommendation, a reason and acceptance criteria.
- **Workflow B (requirements template):** the model returns an initial
  template, one critique for each of three user-chosen roles, and an improved
  template.

Both workflows send two messages to the model: a system instruction and the
prompt. They decode the reply as JSON and add a `task` key. The page turns
the result into alternating assistant/user chat turns. In step mode, a
session-scoped cursor reveals the turns one at a time.

The project models:

- **`Text`** (`text.dfy`): the Python string operations the code calls.
  These are `str.strip` (whose whitespace is that of `str.isspace`),
  `str.join`, `str.replace`, and `str()` of an integer. The code never
  calls `str.split`; the model's one-character `Split` is only the means by
  which the lemmas read the lines of a rendered turn.
- **`PyJson`** (`pyjson.dfy`): the values `json.loads` produces, seen as
  Python objects. It covers dict lookup where the last duplicate key wins,
  the merge `{"task": prompt, **data}`, `str()` of a scalar, iteration and
  subscripting.
- **`CotTemplates`** (`templates.dfy`): `cot_templates.py`. It holds:
  - the two system instructions;
  - the critique-schema fragment and its splice into Workflow B's
    instruction;
  - the two-message request;
  - the error wrapping of an undecodable reply, and the `task` merge;
  - both workflows.

  The chat model and the JSON decoder are function-valued parameters.
- **`Transcript`** (`transcript.dfy`): how `app.py` turns a result into chat
  turns. This covers:
  - the table of candidates, the recommendation and its bullets;
  - the critique blocks in role order;
  - the exceptions raised when a field is missing or has the wrong type.
- **`Reveal`** (`reveal.dfy`): the step cursor, the display loop and the
  "Next step" / "Restart steps" actions.
- **`App`** (`app.dfy`): the input check before a run. It also holds the
  `Session` class, whose `step` field is the cursor kept in the session
  state. A ghost log of the requests sent lets contracts say which runs
  reach the model.

Two facts about the code that the model keeps:

- **The `task` key:** the result is built as `{"task": prompt, **data}`
  (cot_templates.py:35), so a decoded object with its own `task` key
  overrides the prompt. `CotTemplates.Decode` and `PyJson.MergeSpec` state
  this.
- **Role checks:** `run_workflow_b` accepts any list of roles; only the page
  checks them (app.py:39). `CotTemplates.CritiqueSchemaRoundTrip` holds for
  any list of roles.

## Model

| member | source | states |
|---|---|---|
| Text.LStrip | app.py:35 | the result is a suffix of the input; what was removed is all whitespace; the result does not start with whitespace |
| Text.RStrip | app.py:35 | the result is a prefix of the input; what was removed is all whitespace; the result does not end with whitespace |
| Text.Strip | app.py:31-35 | the stripped text is empty exactly when the input is all whitespace; otherwise it starts and ends with a non-whitespace character |
| Text.StripKeepsMiddle | app.py:31-35 | the stripped text is a slice of the input with nothing but whitespace before and after it |
| Text.StripIdempotent | app.py:31-35 | stripping a second time changes nothing, so roles are compared in their stripped form |
| Text.Split | app.py:57-66 | the tool the lemmas use to read a turn's lines: splitting on a character yields at least one piece; no piece contains the separator; joining the pieces with it gives back the text |
| Text.SplitNoSeparator | app.py:57-66 | a text without the separator splits into itself alone |
| Text.SplitAt | app.py:57-66 | splitting `a + c + b` where `a` has no `c` gives `a` followed by the pieces of `b` |
| Text.SplitJoin | app.py:57-66 | joining separator-free lines and splitting the text again returns the lines |
| Text.TerminatedAppend | app.py:58-59 | newline-terminated lines of a concatenation are the two terminated blocks concatenated |
| Text.JoinTerminated | app.py:58-59 | joining lines followed by an empty line equals terminating every line |
| Text.JoinAppend | app.py:73 | joining a concatenation puts one separator between the two joined halves |
| Text.ReplaceAbsent | cot_templates.py:60 | replacing a pattern whose first character does not occur leaves the text unchanged |
| Text.ReplaceOnce | cot_templates.py:60 | a pattern that can only match where it was placed is replaced there and nowhere else |
| Text.DigitChar | app.py:59 | a digit value maps to a character between '0' and '9' that reads back as that digit |
| Text.NatToString | app.py:59 | a natural prints as a non-empty run of decimal digits whose first digit is '0' only for zero |
| Text.CanonicalUnique | app.py:59 | every run of decimal digits without a leading zero is the printed form of its value, so a number has exactly one printed form |
| Text.NatToStringRoundTrip | app.py:59 | reading the printed digits back gives the number |
| Text.IntToString | app.py:59 | an integer prints on one line, with a leading '-' exactly when it is negative, then at least one decimal digit, with no leading zero unless the integer is 0; the digits read back as its absolute value |
| PyJson.Lookup | app.py:58-76 | a found value is that of the last entry with the key; a key that no entry has gives no value |
| PyJson.Overwrite | cot_templates.py:35 | assigning to an existing key keeps the dict's keys in place |
| PyJson.OverwriteLookup | cot_templates.py:35 | after assigning to a key, that key gives the new value and every other key gives its old value |
| PyJson.Put | cot_templates.py:35 | inserting a key makes it give the new value, leaves other keys alone and keeps existing keys in order |
| PyJson.LookupDistinct | cot_templates.py:35 | in a dict without duplicate keys, each entry's key gives that entry's value |
| PyJson.PutAllLookup | cot_templates.py:35 | after unpacking `data` into a dict, a key of `data` gives data's value and any other key keeps the dict's value |
| PyJson.PutAllKeepsOrder | cot_templates.py:35 | unpacking keeps the first keys of the target dict in front |
| PyJson.MergeSpec | cot_templates.py:35 | the merged dict starts with `task`; `task` gives data's own `task` if it has one and the prompt otherwise; every other key gives data's value |
| PyJson.Keys | app.py:58 | the keys of a dict are distinct, are exactly the keys it holds, and come in the order in which each key first occurs |
| PyJson.Str | app.py:59 | `str()` gives "None" for None, "True"/"False" for a bool, the decimal text of an integer and a string itself; a list or dict is not printable |
| PyJson.Iterate | app.py:58 | iteration yields a list's items, one one-character string per character of a string, or a dict's keys in first-occurrence order; it fails on None, bools and integers |
| PyJson.Subscript | app.py:73 | subscripting succeeds exactly on a dict that holds the key, and then gives the value of the key's last entry |
| CotTemplates.Items | cot_templates.py:57 | one schema item per role, in role order |
| CotTemplates.CritiqueSchemaRoundTrip | cot_templates.py:57-58 | the role names can be read back from the critique fragment in order, for any list of roles without a backslash |
| CotTemplates.ItemRolesJoin | cot_templates.py:57 | the comma-joined items parse back to their roles |
| CotTemplates.SystemPromptBSplice | cot_templates.py:38-48 | Workflow B's instruction is the base text with the fragment in place of `{critique_schema}`, and the rest unchanged |
| CotTemplates.TwoMessages | cot_templates.py:26-29 | each workflow sends exactly two messages: the system instruction, then the prompt verbatim as the user message |
| CotTemplates.Decode | cot_templates.py:31-35 | an undecodable reply raises an error that starts with "Invalid JSON from LLM: ", carries the decoder's message and ends with the raw reply; a decoded non-object fails; a decoded object gains `task` as its first key |
| CotTemplates.RunWorkflowA | cot_templates.py:21-35 | an adapter error passes through unchanged; otherwise the reply to Workflow A's two messages is decoded |
| CotTemplates.RunWorkflowB | cot_templates.py:50-71 | an adapter error passes through unchanged; otherwise the reply to Workflow B's two messages is decoded |
| Transcript.ReadRow | app.py:59 | a candidate yields a row exactly when it is a dict with `title`, `score` and `rationale`, each printable |
| Transcript.ReadRows | app.py:58-59 | the candidates yield rows exactly when every candidate does, one row each, in order |
| Transcript.StrAll | app.py:66 | the acceptance items are all printable, one string each, in order |
| Transcript.ReadA | app.py:57-67 | Workflow A's turns can be built exactly when `candidates` and `acceptance` are iterable with readable entries and `recommendation` and `why` are printable |
| Transcript.ReadCritiques | app.py:73 | the critique blocks can be built exactly when `critique` holds every role; the blocks come in role order |
| Transcript.ReadB | app.py:71-76 | Workflow B's turns can be built exactly when both templates are strings and every role has a critique |
| Transcript.BuildTurnsA | app.py:54-68 | the loop that builds the table one row per candidate produces Workflow A's three turns |
| Transcript.BuildTurnsB | app.py:69-76 | the appends produce Workflow B's five turns |
| Transcript.RowsTerminated | app.py:58-59 | the table body is one newline-terminated line per row |
| Transcript.TableLines | app.py:57-59 | with one-line cells, the table splits into the two header lines, one line per candidate, and a final empty line |
| Transcript.RecommendationLines | app.py:63-67 | the recommendation turn splits into the recommendation line, the reason line, the acceptance heading and one bullet per item |
| Transcript.CandidatesLines | app.py:57-60 | with one-line cells, the first turn splits into the heading, a blank line, the two header lines, one line per candidate and a final empty line |
| Transcript.TurnsAShape | app.py:54-68 | Workflow A shows three turns (assistant, user, assistant); the first is the heading followed by the table |
| Transcript.TurnsBShape | app.py:69-76 | Workflow B shows five alternating turns; the second names the roles comma-separated; with three roles the third holds three blocks separated by blank lines |
| Transcript.CritiquesInRoleOrder | app.py:73 | critiques that the object holds for three roles are read as (role, text) pairs in role order |
| Transcript.CritiqueTurnInRoleOrder | app.py:73 | the critique turn follows the order of the roles, not the order of the model's keys |
| Transcript.DocumentedReplyA | cot_templates.py:6-19 | a reply with the schema that Workflow A's instruction documents always yields its turns: the rows, the recommendation, the reason and the acceptance items |
| Transcript.ReadEncodedA | app.py:57-67 | a dict whose four documented keys hold a reply's encoded fields yields that reply's rows and fields, whatever else the dict holds |
| Transcript.ReadAFrom | app.py:57-67 | a result with the four keys yields its fields |
| Transcript.DocumentedRows | app.py:58-59 | documented candidates read back as rows with their scores printed in decimal |
| Transcript.DocumentedRow | app.py:59 | a documented candidate reads back as its row |
| Transcript.DocumentedAcceptance | app.py:66 | documented acceptance items read back unchanged |
| Reveal.ShownCount | app.py:86-87 | the visible turns are exactly the first ones whose index is at most the cursor |
| Reveal.VisibleTurns | app.py:86-87 | the display loop shows exactly the prefix of turns up to the cursor |
| Reveal.NotSteppingShowsAll | app.py:82-83 | with step mode off every turn is shown and nothing is offered |
| Reveal.FreshSteppingShowsFirst | app.py:79-81 | a fresh session in step mode shows the first turn; "Next step" is offered if more remain |
| Reveal.OfferCases | app.py:99-104 | "Next step" exactly below the last index, "Restart steps" exactly at it, nothing past it or outside step mode |
| Reveal.ClickEffects | app.py:100-104 | "Next step" reveals exactly one more turn; "Restart steps" returns to the first turn |
| Reveal.LeftoverCursor | app.py:79-104 | a cursor kept from a longer transcript shows every turn and offers no action |
| Reveal.WalkThrough | app.py:99-101 | each click of "Next step" advances by one up to the last turn |
| Reveal.FullCycle | app.py:99-104 | from the first turn, n - 1 clicks reach the last one, and one more click restarts |
| App.SetOfThree | app.py:39 | three roles form a set of three exactly when they are pairwise distinct |
| App.ValidateRun | app.py:34-41 | a prompt that is empty after stripping is refused; Workflow A otherwise proceeds; Workflow B proceeds exactly when its three roles are non-empty and distinct |
| App.EmptyAfterStrip | app.py:31-39 | a role is empty after stripping exactly when it is all whitespace |
| App.ProceedWithThree | app.py:35-41 | with three roles, Workflow B goes ahead exactly when the prompt is not all whitespace and the roles are non-empty and pairwise distinct |
| App.RolesCompareStripped | app.py:31-41 | Workflow B proceeds exactly when the prompt and all three roles have a non-whitespace character and no two roles are equal after stripping |
| App.RequestCarriesPrompt | cot_templates.py:26-30 | the request of either workflow has two messages, carries the prompt verbatim as the user message, and passes the model name through |
| App.BuildTurns | app.py:54-76 | the builder of the chosen workflow gives the turns of the result, and no turns exactly where reading the result raises |
| App.Session.constructor | app.py:80 | a new session holds no cursor and has sent nothing |
| App.Session.InitCursor | app.py:79-83 | step mode keeps an existing cursor or starts at 0; otherwise the cursor is the last index |
| App.Session.Navigate | app.py:99-104 | offers the action for the cursor and applies it when clicked |
| App.Session.Render | app.py:79-104 | sets up the cursor, shows the turns up to it, and offers and applies the navigation action; nothing is sent |
| App.Session.Run | app.py:33-104 | a warned run sends nothing and keeps the cursor; otherwise exactly one request is sent; an error is shown as "Error: " plus its text; an error or a failed turn build keeps the cursor; a rendered run shows the turns up to the cursor and applies the clicked action |

## Left out

- The chat adapter (`openai_helper.py`) is not part of this model. It is a parameter, `Llm`. Client construction, the API key and base URL from the environment, the default model, the temperature and the extraction of the reply text are not modelled.
- The JSON decoder is a parameter, `Parser`. The JSON grammar and the decoder's error texts are not modelled.
- Floating-point JSON numbers are not modelled; a decoded number is an integer.
- PyJson.Str: `str()` of a list or dict (its `repr`) is not modelled. Such a value is reported as unprintable, so a turn built from it counts as a failed build, not a rendered `repr`.
- Text.IntToString: Python's limit on converting integers of more than 4300 digits is not modelled.
- Streamlit rendering is not modelled: the markdown and HTML of the turns, the chat bubbles, the sidebar and page layout.
- Streamlit's rerun-per-interaction is modelled as one call of `App.Session.Run` per run. A nested button's click is the `clicked` parameter of that call. That a click triggers a fresh rerun, rather than acting inside the same run, is not modelled.
- Exceptions are outcomes: `st.stop()` after a warning or error becomes `Warned` or `Errored`. An uncaught `KeyError`/`TypeError` while building turns becomes `Crashed`. Traceback text is not modelled.
- CotTemplates.Decode: the exact text of Python's TypeError for a non-object reply is modelled only for the value types the model has.
- Text.IsSpace: Python's whitespace set is modelled by code point; the Unicode database is not consulted.
