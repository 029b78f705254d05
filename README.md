# Card planner of magic-the-juicening

`generateCards` reads a sheet of Magic card rows and drives a card-creator web
page, card after card, to render each card and download its image. This project
models the part of that function which decides *what* to send to the page:

- the three lookup tables: rarity letter to set-symbol URL, colour to frame
  option, and colour to power/toughness (P/T) frame option;
- the filter that skips rows lacking a Name, Color or Type;
- the frame selection for single-colour and slash-joined dual-colour cards;
- the field entry (cost, title, type line, rules text with escaped line
  breaks decoded, P/T);
- the set symbol, the download and the reload;
- the card loop itself, as a method that builds the log of instructions it
  sends if no call throws.

The page is a log of abstract instructions (`CardPlan.Action`). A small
semantics of those instructions (`Page.Step`, `Page.Run`) lets the model say
what a plan does to the page: which text each field holds, which frame layers
lie on the card, and which image names are downloaded. In that semantics,
typing appends to the selected field and clearing empties it. The page is
assumed to save each downloaded image under the text of the title field. What
the page looks like after a reload is a parameter (`reloaded`) of every lemma
about it.

The code does not check for an unknown colour or rarity: the table lookup
yields `undefined` and the click or the typing goes ahead with it. The model
carries such a lookup as `None` inside the action (`ClickFrame(None)`,
`SetSymbolUrl(None)`), and `CardPlan.PlanDefinedIff` says exactly when a plan
holds one. Clicking an option whose position is `undefined` is an invalid
selector, and typing an `undefined` URL fails, so the call throws. The
`catch` around the whole loop (src/utils.ts:223-226) then ends the program.
`Page.Exec` runs a log with that behaviour: it stops at the first such action
and keeps only the images downloaded before it. `Batch.BatchDownloads` states
the result for the whole batch.

Modules, one per file: `Wrappers` (Option), `Tables`, `Strings` (slash split
and line-break decoding), `CardPlan` (one row and its plan), `Page` (what a
plan does to the page) and `Batch` (the loop over all rows).

## Model

| member | source | states |
|---|---|---|
| Tables.FrameIndex | src/utils.ts:17-28 | a colour has a frame option exactly when it is one of the ten keys White … Vehicle, and that option lies in 1..10 |
| Tables.PowerToughnessFrameIndex | src/utils.ts:30-39 | a colour has a P/T frame option exactly when it is one of White … Artifact or Colorless, and that option lies in 11..18 |
| Tables.RarityUrl | src/utils.ts:11-15 | a rarity has a URL exactly when it is R, U or C, and that URL is non-empty |
| Tables.FrameRangesDisjoint | src/utils.ts:17-39 | no frame option equals a P/T frame option |
| Tables.FrameIndexInjective | src/utils.ts:17-28 | distinct colours have distinct frame options |
| Tables.PowerToughnessFrameIndexInjective | src/utils.ts:30-39 | distinct colours have distinct P/T frame options |
| Tables.TableGaps | src/utils.ts:17-39 | Land, Eldrazi and Vehicle have no P/T frame option; Colorless has no frame option; the Colorless P/T option is 18 |
| Strings.Split | src/utils.ts:127 | splitting at a separator always yields at least one piece, and the first piece is no longer than the input |
| Strings.JoinSplit | src/utils.ts:127 | joining the pieces with the separator gives back the input |
| Strings.SplitJoin | src/utils.ts:127 | splitting a join of separator-free pieces gives back those pieces |
| Strings.SplitPiecesFree | src/utils.ts:127 | no piece contains the separator |
| Strings.SplitHasSecondPiece | src/utils.ts:125-129 | there is a second piece exactly when the input contains the separator, so the right colour of a dual-colour card is always there |
| Strings.DecodeNewlines | src/utils.ts:192 | decoding escaped line breaks never lengthens the text |
| Strings.EncodeNewlines | src/utils.ts:192 | the inverse encoding adds one character per line break and leaves no real line break |
| Strings.DecodeLength | src/utils.ts:192 | the decoded text is shorter than the input by exactly the number of backslash-n pairs replaced |
| Strings.DecodeLineBreaks | src/utils.ts:192 | the decoded text has one more line break per replaced pair than the input |
| Strings.DecodeNoBackslash | src/utils.ts:192 | a text with no backslash is unchanged |
| Strings.DecodeNoEscapes | src/utils.ts:192 | a text with no backslash-n pair is unchanged |
| Strings.DecodeLeavesNoEscapes | src/utils.ts:192 | the decoded text contains no backslash-n pair |
| Strings.DecodeIdempotent | src/utils.ts:192 | decoding twice is decoding once |
| Strings.DecodeEncode | src/utils.ts:192 | decoding undoes encoding for every text without a backslash-n pair |
| CardPlan.ShouldProcess | src/utils.ts:107-109 | a row is planned only when Name, Color and Type are all non-empty |
| CardPlan.HasPowerToughness | src/utils.ts:195 | both the Power and the Toughness cell are filled in |
| CardPlan.IsDualColor | src/utils.ts:125 | the colour contains a slash |
| CardPlan.WarmUpSteps | src/utils.ts:111-122 | open the text tab, choose the title, type "Test", open the frame tab |
| CardPlan.FrameSteps | src/utils.ts:124-163 | the frame clicks, each followed by adding the frame to the full card or the right half; the properties are in `Page.SingleColorFrames`, `Page.DualColorFrames` and `CardPlan.DualColorPowerToughnessIsColorless` |
| CardPlan.CostSteps | src/utils.ts:173-177 | choose the cost field and type the cost, only when the cost is non-empty |
| CardPlan.TitleSteps | src/utils.ts:178-185 | choose the title, clear it, type the name; the effect is in `Page.TitleOverwrite` |
| CardPlan.TypeSteps | src/utils.ts:186-188 | choose the type field and type the type line |
| CardPlan.RulesSteps | src/utils.ts:189-193 | choose the rules field and type the decoded rules text, only when the text is non-empty |
| CardPlan.PowerToughnessSteps | src/utils.ts:194-198 | choose the P/T field and type the P/T text, only when both values are present |
| CardPlan.TextSteps | src/utils.ts:167-198 | the five field steps in source order; the properties are in `CardPlan.TextFieldOrder` and `Page.TextStepsEffect` |
| CardPlan.FinishSteps | src/utils.ts:200-218 | open the set-symbol tab, enter the rarity URL, download, reload |
| CardPlan.PlanCard | src/utils.ts:111-218 | the whole plan of one processed row; its effect is in `Page.PlanCardOutcome` |
| CardPlan.PowerToughnessText | src/utils.ts:197 | the P/T text has length power + 1 + toughness, with the slash right after the power |
| CardPlan.PowerToughnessRoundTrip | src/utils.ts:197 | splitting the P/T text at the slash gives back power and toughness |
| CardPlan.DualColors | src/utils.ts:125-129 | neither colour taken from a dual colour contains a slash |
| CardPlan.DualColorsOf | src/utils.ts:125-129 | for a colour "a/b" or "a/b/…", the frame colours are a and b |
| CardPlan.LaterColorsIgnored | src/utils.ts:127-138 | colours after the second change no frame step |
| CardPlan.DualColorPowerToughnessIsColorless | src/utils.ts:140-145 | a dual-colour card clicks no P/T option other than Colorless (18), and clicks that one exactly when it has power and toughness |
| CardPlan.TextFieldOrder | src/utils.ts:173-198 | field entry selects fields in strictly increasing order within 1..5; title and type always; cost exactly when Cost is non-empty; rules exactly when Text is non-empty; P/T exactly when both are present |
| CardPlan.FrameDefinedIff | src/utils.ts:125-163 | the frame steps click only real options exactly when every colour they look up is a table key |
| CardPlan.TextDefined | src/utils.ts:173-198 | field entry never uses an undefined value |
| CardPlan.PlanDefinedIff | src/utils.ts:111-218 | a card's plan uses no undefined value exactly when its colour lookups and its rarity are table keys |
| CardPlan.UndefinedPowerToughnessFrame | src/utils.ts:146-163 | a Vehicle, Eldrazi or Land card with power and toughness clicks an undefined P/T option |
| Page.Step | src/utils.ts:111-218 | the assumed effect of one instruction on the page: typing appends to the chosen field, clearing empties it, a download saves the title text, a reload yields the reloaded page |
| Page.Run | src/utils.ts:106-219 | the page after every instruction of a log is carried out in order |
| Page.RunAppend | src/utils.ts:106-219 | running two logs one after the other is running their concatenation |
| Page.TitleOverwrite | src/utils.ts:179-185 | after the title step the title field holds exactly the name, whatever it held before |
| Page.TextStepsEffect | src/utils.ts:173-198 | after field entry the title is the name; cost, type line, decoded rules text and P/T text are appended to their fields; every other field, the tab, the frames, the set symbol and the downloads are unchanged |
| Page.FrameStepsEffect | src/utils.ts:124-163 | frame selection adds exactly the card's frame layers and changes no field, tab, set symbol or download |
| Page.SingleColorFrames | src/utils.ts:146-163 | a single-colour card gets its colour's frame over the full card, then its colour's P/T frame exactly when it has power and toughness |
| Page.DualColorFrames | src/utils.ts:125-145 | a card "a/b" gets a's frame over the full card, b's frame over the right half, then the Colorless P/T frame exactly when it has power and toughness |
| Page.AfterFieldEntry | src/utils.ts:167-209 | after field entry and the set symbol, the title is the name, the other fields have their values appended, the rarity URL is set and the frames are unchanged |
| Page.WarmUpEffect | src/utils.ts:111-122 | the warm-up appends "Test" to the title, touches no other field or frame, and leaves the frame tab open |
| Page.PageAtDownload | src/utils.ts:111-214 | when the download is pressed, the set-symbol tab is open with the rarity's URL, the title is the name, the other fields hold their new values, and the card's frames lie on top of the earlier ones; the download is reached only when every lookup succeeds (`Page.PlanCardOutcome`) |
| Page.PlanCardEffect | src/utils.ts:111-218 | a processed card whose lookups all succeed adds one download named after the card and leaves the reloaded page |
| Page.Exec | src/utils.ts:106-226 | sending a log stops at the first action with an undefined frame index or URL, where the call throws and the program exits |
| Page.ExecAppend | src/utils.ts:106-226 | sending two logs one after the other is sending their concatenation; once the program has exited, nothing more happens |
| Page.ExecDefined | src/utils.ts:106-219 | a log without an undefined value runs to the end, with the same effect as carrying out every action |
| Page.ExecWithoutDownload | src/utils.ts:111-209 | a log without a download runs to the end exactly when it holds no undefined value, and otherwise exits with the downloads unchanged |
| Page.PlanCardOutcome | src/utils.ts:111-226 | a processed card is downloaded, named after the card, exactly when its colour and rarity lookups succeed; otherwise the program exits before the download with the earlier images only |
| Page.DisciplinedAppend | src/utils.ts:106-219 | a concatenated log sends every action on its own tab exactly when both parts do, the second from where the first ends |
| Page.StaysInDisciplined | src/utils.ts:111-201 | a log that never changes tab sends every action on its own tab when that tab is open |
| Page.TextStaysInTextTab | src/utils.ts:173-198 | field entry uses only text-tab controls |
| Page.FrameStaysInFrameTab | src/utils.ts:124-163 | frame selection uses only frame-tab controls |
| Page.PlanCardDisciplined | src/utils.ts:111-218 | from any page, a card's plan sends every action while the tab holding its control is open |
| Batch.Contribution | src/utils.ts:106-219 | one iteration: the card's plan, or nothing for a skipped row |
| Batch.Concat | src/utils.ts:106-219 | the per-row logs of a list of rows, one after another |
| Batch.BatchPlan | src/utils.ts:106-219 | the log the whole loop sends if no call throws; `Batch.GenerateCards` builds it and `Batch.BatchPlanIsPlansOfProcessed` says what it is |
| Batch.PlanAll | src/utils.ts:106-219 | the plans of a list of cards, one after another |
| Batch.Processed | src/utils.ts:106-109 | the processed rows are rows of the input that pass the filter, at most as many as the input |
| Batch.GenerateCards | src/utils.ts:104-219 | the instructions the loop sends if no call throws are, in order, exactly the batch plan of the rows; `Page.Exec` cuts them at the first call that throws (`Batch.ExecBatchPlan`, `Batch.BatchDownloads`) |
| Batch.ConcatAppend | src/utils.ts:106-219 | the plans of two row lists, one after the other, are the plans of their concatenation |
| Batch.BatchPlanAppend | src/utils.ts:106-219 | the batch plan of two row lists is the first's plan followed by the second's |
| Batch.SkippedRowContributesNothing | src/utils.ts:106-109 | a row without Name, Color or Type adds no instruction, wherever it stands |
| Batch.BatchPlanIsPlansOfProcessed | src/utils.ts:106-219 | the batch plan is the plans of the processed rows, one after another, in input order |
| Batch.ProcessedAppend | src/utils.ts:106-109 | filtering keeps input order across any split of the rows |
| Batch.ProcessedCounts | src/utils.ts:106-109 | a row that passes the filter is processed as often as it occurs; one that fails it never |
| Batch.Leading | src/utils.ts:106-226 | the longest leading run of cards meeting a condition: a prefix, all of it meeting the condition, and the next card failing it |
| Batch.LeadingUnique | src/utils.ts:106-226 | those three properties determine the leading run |
| Batch.LeadingSnoc | src/utils.ts:106-226 | appending one card extends the leading run only when the whole list met the condition |
| Batch.ContributionOutcome | src/utils.ts:106-226 | a skipped row changes nothing; a processed row adds its name when its lookups succeed and otherwise ends the program |
| Batch.Rendered | src/utils.ts:106-226 | the processed rows rendered before the first one whose lookup fails: the leading run of rows with known lookups |
| Batch.RenderedAfter | src/utils.ts:106-226 | which processed rows are rendered once one more row follows |
| Batch.RowOutcome | src/utils.ts:106-226 | what one more row does to the outcome so far: nothing after an exit or for a skipped row; otherwise one download named after it, or an exit when a lookup fails |
| Batch.Replay | src/utils.ts:106-226 | the outcome of the rows taken one at a time, in input order |
| Batch.ExecBatchPlan | src/utils.ts:106-226 | sending the loop's log ends exactly as replaying the rows one at a time |
| Batch.ReplayStep | src/utils.ts:106-226 | one more row keeps the link between the outcome, the downloads and the rendered rows |
| Batch.ReplayDownloads | src/utils.ts:106-226 | replaying the rows runs to the end exactly when every processed row's lookups succeed, and saves the names of the rendered rows in order |
| Batch.BatchDownloads | src/utils.ts:104-226 | the batch runs to the end exactly when every processed row's lookups succeed; the images saved are those of the processed rows before the first whose lookup fails, named after them, in input order |
| Batch.AllRendered | src/utils.ts:104-219 | when every processed row's lookups succeed, the batch runs to the end and saves one image per processed row, named after it, in input order |
| Batch.BatchDisciplined | src/utils.ts:106-219 | from any page, the whole batch sends every action while the tab holding its control is open |

## Left out

- Reading and parsing the sheet (src/utils.ts:67-81) is file I/O through a CSV library. The model takes the parsed rows as input.
- Cell types from the parser's dynamic typing are not modelled. Every cell is text, and an empty cell is the empty string. So the model does not describe these sheets:
  - A numeric cell such as a Cost of `3` reaches the typing call as a number, which cannot be typed. The call throws and the catch ends the batch (src/utils.ts:174-176, 223-226). The model types the text "3".
  - A Name of `0` is falsy, so the source skips that row (src/utils.ts:107-109). A Cost or Text of `0` is falsy too, so the source skips that step (src/utils.ts:174, 190). The model treats "0" as non-empty text.
  - A missing Power or Toughness column is `undefined`, not `null`, so the P/T test lets it through.
- Power and Toughness are taken as the text the source's template renders. Number-to-text formatting is not modelled.
- Browser launch, download setup and navigation (src/utils.ts:83-102) and closing the browser (src/utils.ts:221-222) are remote-browser plumbing.
- The waits for controls to become visible are left out. So are the keyboard events, which appear only as `ClearField` and the Enter after the set-symbol URL.
- The delays (src/utils.ts:165, 212, 216) are wall-clock waits.
- The path and package helpers (src/utils.ts:54-60) are filesystem plumbing. The error log and the exit code of the `catch` (src/utils.ts:223-226) are not modelled. That the program ends there is modelled by `Page.Exec`.
- Page.Exec: only an undefined frame index or URL makes a call fail. Timeouts and other browser errors are not modelled.
- Page.Step: typing into the set-symbol URL is modelled as setting the URL. The page is assumed to name each image after the title field; the actual file name and its extension are not modelled. How the page renders a frame and what it shows after a reload are the page's own behaviour and are not modelled.
- Object-prototype keys of the JavaScript tables (such as `constructor`) are not modelled. The tables are finite maps of their listed keys.
- Flavor is carried in `Card` but never used, as in the source.
- src/index.ts is command-line wiring. The sheet layout (`findOptimalLayout`) is not part of this model. Split/fuse pairing and resuming a partly finished batch are not in the code modelled here.
