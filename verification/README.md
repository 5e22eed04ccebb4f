# A verified model of openvpn-ui

A Dafny model of the parts of openvpn-ui whose correctness is not visible from a single body, with
proofs of what those parts are for. `dafny verify dfyconfig.toml` checks everything.

| files | what they model |
|---|---|
| `HandlebarsAst`, `HandlebarsCompiler`, `HandlebarsMachine`, `HandlebarsCodeGen` | the Handlebars 4.0.5 compiler shipped for the API page: tree to opcodes, and the stack machine that turns opcodes into code, as functions and as the two objects that do it step by step |
| `HandlebarsTranslation`, `HandlebarsStatements`, `HandlebarsMeaning` | its correctness: a translation read off the tree, stack discipline, and what the code of an expression evaluates to |
| `HandlebarsCalls`, `HandlebarsTemplates`, `HandlebarsHashes` | what names, paths, calls and statements mean, told by the tree alone; some whole templates; the array that collects a hash |
| `HandlebarsMerge`, `HandlebarsSums`, `HandlebarsRendering`, `HandlebarsNesting`, `HandlebarsExamples` | the lines joined with `+`, what JavaScript's `+` makes of them, what a program returns and shows, how nested programs compose, and an input that shows less |
| `InfluxProtocol`, `InfluxWriter`, `InfluxCounters` | the InfluxDB writer: goroutines and flush loop as a step relation, the writer as an object, and the 24-slot counters against an event log |
| `ToFixed`, `ToFixedShim`, `ToFixedAnswers`, `Splice` | the es5-shim routines `toFixed` (six limbs of seven digits, and what its text says) and `splice` (in place, with holes) |
| `RetentionTables`, `RetentionJob`, `RetentionRuns` | the retention job over the three traffic tables, told row by row, and whole runs of it |
| `Sessions`, `SessionRuns`, `SessionHistory`, `SessionSteps` | the session table between status scrapes and the disconnect hook: operations, runs of them, their statements interleaved, and every read and statement as a step |
| `TextLines`, `TextMeanings`, `HandHeader`, `ServerConf`, `ServerConfRuns`, `ServerConfBlocks`, `ServerConfDirectives` | the merge that keeps hand-written server.conf lines across form saves, told by lines, words and directives, and the inline blocks it does not keep as they are |
| `StatusLog`, `StatusLogLayouts`, `StatusLogFields` | the parser of openvpn-status.log in both layouts, for printed logs and for any row |
| `Numerals`, `NumToStr`, `TextOrder`, `Outcomes`, `Sequences` | decimal numerals, grouped digits, texts in order, results and options, subsequences |

Each file that changes state in the original is a class or a method here, proved equal to a function on
values; what is promised is then proved of that function, for every input and every run.

## Where the code does less than it promises

Each of these is a lemma with the exact condition or a concrete input.

- A Handlebars hash compiles and binds its first pairs exactly if no key is `length`, `__proto__` or
  `hasOwnProperty` (`HashBindsFirstPair`, `SpecialKeyExamples`); a dynamic partial without parameters under
  `explicitPartialContext` has name and context swapped (`PartialArguments`).
- Unescaped values with nothing else between them are added, not shown one after the other, when the
  first two of a sum are no texts: `{{{a}}}{{{b}}}` with 1 and 2 shows 3 (`SumShowsIff`,
  `ProgramRendersIff`, `ProgramRendersExactly`, `NumbersAreAdded`). A program that is only an indented
  partial under `preventIndent` returns the indent alone (`PartialReturns`).
- Lowering the buffer size of a running InfluxDB writer can leave a full buffer that nobody is told
  about until the next tick (`ResizeSafeIffNotLowered`).
- The rolling counters are exact only while the clock is less than 24 hours behind its latest hour
  (`BumpAgrees`), and hour 0 is taken for none (`HourZeroIsNeverCleared`).
- A retention round continues after a failed statement. A failed prune makes the next round count samples
  again (`AggregatingAgain`, `FailedPruneOvercounts`); after a failed hourly aggregation the prune of the
  same round deletes samples that were never counted, and loses exactly the growth the aggregation would
  have inserted (`FailedAggregateLoses`, `LostStaysLost`, `FailedAggregateExample`); the hourly and daily
  tables likewise (`DailyRollOrFail`). The comment in the source speaks of an UPSERT; the code inserts.
- A client whose connect time cannot be read gets a new session at every scrape, and the one before is
  closed and written: scraping the same clients again leaves the session table alone exactly if every
  named client has a connect time, and else opens one session for each that has none
  (`RescrapeIdleIff`, `UntimedReopens`).
- A session is written once for each goroutine that reads it as active before one of them closes it
  (`WrittenPerClaim`): a hook during a scrape makes it two exactly if the scrape lists the hook's session
  and did not see it (`HookDuringScrape`, `WrittenTwice`). The final counters of a hook are overwritten
  exactly if the scraper had looked the row up before and sets its counters after
  (`CountersAfterHook`, `CountersLost`).
- A last kept inline block without its end is read back longer by a newline and grows with every save
  (`HandSectionStableIff`, `BlockGrowsWithEverySave`, `OpenBlockGrows`); a kept block with a line that
  still ends in CR after newline conversion does not survive re-parsing (`KeptTextRoundTripIff`,
  `ReturnIsLost`).
- A connection without a port shares its key with another exactly if its address reads as the address and
  port of the other, under the same name (`KeysEqualIff`, `KeyCollision`).
- `splice` returns an array without the holes at the end of the removed slice (`RemovedIsSliceIff`),
  as edition 5.1 of ECMA-262 has it and later editions do not.

## Model

| member | source | states |
|---|---|---|
| HandlebarsTranslation.ExprCorrect | swagger/lib/handlebars-4.0.5.js:2979-3071 | From any machine state, running the opcodes of an expression leaves exactly its tree-read translation on top of the stack, the error its hash keys cause if there is one, and nothing below it changed |
| HandlebarsTranslation.ParamsCorrect | swagger/lib/handlebars-4.0.5.js:3138-3142 | The opcodes of a parameter list leave the translations of the parameters in source order, above an unchanged stack |
| HandlebarsTranslation.PathCorrect | swagger/lib/handlebars-4.0.5.js:3032-3051 | A path's opcodes leave its lookup chain: block parameter, data variable, context, or the context itself; each segment guarded as its falsy mode says |
| HandlebarsTranslation.HashCorrect | swagger/lib/handlebars-4.0.5.js:3073-3087 | A hash's opcodes bind each key to its own value although values come off the stack last first, or stop with the error of a key; the enclosing hash being collected is restored |
| HandlebarsTranslation.InvokeCorrect | swagger/lib/handlebars-4.0.5.js:3014-3030 | A helper call's opcodes leave one call whose arguments are the frame's parameters in order, with programs and hash as options |
| HandlebarsTranslation.AmbiguousCorrect | swagger/lib/handlebars-4.0.5.js:2991-3005 | An ambiguous mustache leaves the helper-or-value call on the path's value and records the helper's name |
| HandlebarsTranslation.CallCorrect | swagger/lib/handlebars-4.0.5.js:2958-3030 | For every kind of call, subexpression or statement, the opcodes leave exactly the translation of the call; which kind a call is, HandlebarsCalls.KindIs tells by the tree |
| HandlebarsTranslation.HashBindsFirstPair | swagger/lib/handlebars-4.0.5.js:4043-4068 | A hash compiles with each key at the value of its first pair if and only if no key is `length` or `__proto__`, which the array collecting the hash does not store as plain keys, or `hasOwnProperty`, which hides the method that `objectLiteral` asks it for |
| HandlebarsTranslation.SpecialKeyExamples | swagger/lib/handlebars-4.0.5.js:4561-4574 | Concrete hashes for which the rule fails: `length` and `hasOwnProperty` stop the compilation, `__proto__` loses its value |
| HandlebarsStatements.StepKeepsSlots | swagger/lib/handlebars-4.0.5.js:4171-4268 | Every opcode, from every machine, keeps `stackSlot` equal to the number of spilled variables, which are named 1 to `stackSlot` in order |
| HandlebarsStatements.PopKeepsSlots | swagger/lib/handlebars-4.0.5.js:4239-4255 | With slots counted right a pop fails exactly on two empty stacks, so 'Invalid stack pop' needs an empty stack |
| HandlebarsStatements.BlockCorrect | swagger/lib/handlebars-4.0.5.js:2873-2907 | A block statement of any kind nets nothing on the stack and writes the lines of its translation, spilled values included; an ambiguous one passes on the options its call kept |
| HandlebarsStatements.MustacheCorrect | swagger/lib/handlebars-4.0.5.js:2958-2969 | A mustache nets nothing on the stack and writes one line, escaped unless that is switched off |
| HandlebarsStatements.PartialCorrect | swagger/lib/handlebars-4.0.5.js:2918-2953 | A partial statement nets nothing on the stack; with `preventIndent` its indent is written first |
| HandlebarsStatements.PartialRestCorrect | swagger/lib/handlebars-4.0.5.js:3185-3199 | After the frame of a partial, programs, hash, indent and call leave exactly the lines of the partial |
| HandlebarsStatements.DecoratorCorrect | swagger/lib/handlebars-4.0.5.js:2909-2916 | A decorator statement nets nothing on the stack and registers one decorator with its arguments in order |
| HandlebarsStatements.StatementCorrect | swagger/lib/handlebars-4.0.5.js:2856-2977 | Every accepted statement, run on an empty inline stack, writes its translation and leaves every stack as it was, or fails with the error of a hash key |
| HandlebarsStatements.BodyCorrect | swagger/lib/handlebars-4.0.5.js:2856-2871 | The same for a whole body, with guids counted on from statement to statement; an accepted partial has at most one argument |
| HandlebarsStatements.ProgramCorrect | swagger/lib/handlebars-4.0.5.js:3379-3431 | A compiled program ends with empty stacks and slot zero, so 'Compile completed with content left on stack' cannot happen; its output is the translation of its body |
| HandlebarsStatements.TemplateDisciplined | swagger/lib/handlebars-4.0.5.js:2856-3087 | For a template and all programs nested in it, at any depth, the only errors of the code generator are those of a hash key: the invalid array length, and the hidden `hasOwnProperty` |
| HandlebarsStatements.PartialArguments | swagger/lib/handlebars-4.0.5.js:2930-2951 | A dynamic partial is called with its own name and context if and only if the context is not left to `explicitPartialContext`; then the two are swapped |
| HandlebarsMeaning.ExprMeans | swagger/lib/handlebars-4.0.5.js:2979-3071 | Evaluated in any environment, the code of an expression has the value the tree means, and changes no variable but its own slot |
| HandlebarsMeaning.CallMeans | swagger/lib/handlebars-4.0.5.js:2991-3030 | The code of a call evaluates to what the call means: helper by name, else the value of the path, else the missing-helper hook, on the meant arguments, programs and hash; an ambiguous block leaves its options, with its own name, in the variable `options`; HandlebarsCalls tells what each call means |
| HandlebarsMeaning.HashMeans | swagger/lib/handlebars-4.0.5.js:3073-3087 | The object literal of a hash evaluates to the record of its pairs, first pair of a key winning |
| HandlebarsCalls.ScopedIff | swagger/lib/handlebars-4.0.5.js:1318-1331 | A path is scoped exactly if its text starts with a dot or has a `this` that no letter, digit or underscore follows |
| HandlebarsCalls.BlockParamIff | swagger/lib/handlebars-4.0.5.js:3201-3210 | A name stands for the first parameter of that name of the innermost block that has one, and for no block parameter exactly if no enclosing block has one |
| HandlebarsCalls.KindIs | swagger/lib/handlebars-4.0.5.js:3102-3136 | Every call that is no block parameter and is a subexpression, passes a parameter or a hash, or is the plain name of a known helper, is a helper call; any other plain name that is no block parameter is ambiguous; everything else is a lookup |
| HandlebarsCalls.HelperCallMeans | swagger/lib/handlebars-4.0.5.js:3014-3030 | Such a helper call, for example a statement with nothing but a hash, calls the known helper of its first part, else a helper of its plain name, else the value of its path, else `helperMissing`, on exactly its parameters in order, its name, the record of its pairs and its numbered programs |
| HandlebarsCalls.AmbiguousCallMeans | swagger/lib/handlebars-4.0.5.js:2991-3005 | An ambiguous name is the helper of that name, else its value, else `helperMissing`, called without arguments on an empty hash if it is a function |
| HandlebarsCalls.LookupMeans | swagger/lib/handlebars-4.0.5.js:3007-3012 | Any other call is the value of its path, called if it is a function, whatever it passes |
| HandlebarsCalls.PairsAreRecorded | swagger/lib/handlebars-4.0.5.js:3073-3087 | The record of a hash has a key exactly if its first pair passes anything but `undefined`, with the meaning of that pair |
| HandlebarsCalls.PathMeans | swagger/lib/handlebars-4.0.5.js:3032-3051 | A path of this context that is not scoped starts at the block parameter of its first part; an empty one is its context; a data path starts at the data; any other at its context |
| HandlebarsCalls.FoundStepwise | swagger/lib/handlebars-4.0.5.js:3788-3813 | Each part is looked up in what the parts before it gave, which stays what it is if it is null, or where falsy values end the lookup if it is falsy |
| HandlebarsTemplates.MustacheMeans | swagger/lib/handlebars-4.0.5.js:2958-2969 | A mustache shows its value escaped, unless it is unescaped or escaping is off; then null shows nothing |
| HandlebarsTemplates.BlockMeans | swagger/lib/handlebars-4.0.5.js:2873-2907 | A block that is a helper call shows its value; an ambiguous one its value if a helper has the name, else what `blockHelperMissing` gives for it and the options of the last ambiguous block with a program; any other what `blockHelperMissing` gives for its value and its own options; programs are numbered in order |
| HandlebarsTemplates.PartialMeans | swagger/lib/handlebars-4.0.5.js:2918-2953 | A partial is invoked by its name, or by the value of its subexpression and then without a name, on its argument, else on the context, else explicitly on undefined, with its hash, its block and its indent, which `preventIndent` writes first instead |
| HandlebarsTemplates.DecoratorRuns | swagger/lib/handlebars-4.0.5.js:2909-2916 | A decorator is registered with its name, the code of its parameters in order and the program it decorates |
| HandlebarsTemplates.CompilesIff | swagger/lib/handlebars-4.0.5.js:2926-2929 | A template compiles if and only if none of its partials, however deep, has more than one argument |
| HandlebarsTemplates.AloneReturns | swagger/lib/handlebars-4.0.5.js:3354-3371 | A program of one statement returns the first thing that the statement shows |
| HandlebarsTemplates.LinkReturns | swagger/lib/handlebars-4.0.5.js:2958-3030 | `{{link href="x"}}` compiles to ten opcodes, the hash among them, and returns, escaped, what the helper `link`, else the value `link`, else `helperMissing` gives for a hash with `href` |
| HandlebarsHashes.DropIs | swagger/lib/handlebars-4.0.5.js:4043-4068 | Setting the length of the array that collects a hash takes away exactly the fields whose keys are numerals of array indices from that length on |
| HandlebarsHashes.LengthIs | swagger/lib/handlebars-4.0.5.js:4043-4068 | It takes whole numbers from 0 to 2^32 - 1 as lengths |
| HandlebarsHashes.StoredIs | swagger/lib/handlebars-4.0.5.js:4043-4068 | A key is stored with its value, `length` sets the length or stops the compilation, `__proto__` stores nothing; every other field stays |
| HandlebarsSums.SumShowsIff | swagger/lib/handlebars-4.0.5.js:3574-3580 | A sum from the left shows the texts of its summands in a row if and only if one of the first two is a text, whatever the others are |
| HandlebarsSums.AnswerShowsExactly | swagger/lib/handlebars-4.0.5.js:3567-3623 | Where adding two values that are no texts prints less than the two in a row (whole numbers printed in full), that is so if and only if no sum starts with two such values: several wrong sums never make up for each other |
| HandlebarsSums.AnswerShows | swagger/lib/handlebars-4.0.5.js:3567-3623 | What the sums of a program add up to shows all texts in order when no sum, and not the sum of the sums, starts with two values that are no texts |
| HandlebarsSums.TextsAreNotAdded | swagger/lib/handlebars-4.0.5.js:3567-3623 | Where every value shown is a text, that is so for every program |
| HandlebarsCodeGen.JavaScriptCompiler.MergeLines | swagger/lib/handlebars-4.0.5.js:3567-3623 | The loop over the lines joins exactly the longest runs of lines that only append, starts the buffer with the first run or the empty string, and returns a last run joined to the buffer or by itself |
| HandlebarsRendering.MergedAnswers | swagger/lib/handlebars-4.0.5.js:3567-3623 | Joining lines leaves the value as it is: the function returns the left-to-right sum of the complete runs, the values added one by one, and the summands of the last run |
| HandlebarsRendering.StatementPuts | swagger/lib/handlebars-4.0.5.js:2873-2977 | The lines of a statement add exactly the pieces it means, on any page, and leave the options that the next block without a program would get |
| HandlebarsRendering.SimpleReturns | swagger/lib/handlebars-4.0.5.js:3354-3371 | A program of one statement returns the first thing the statement shows, unconverted |
| HandlebarsRendering.PartialReturns | swagger/lib/handlebars-4.0.5.js:2944-2953 | A program that is only a partial returns what the partial gives, or with a prevented indent the indent alone |
| HandlebarsRendering.ProgramMeans | swagger/lib/handlebars-4.0.5.js:3379-3431 | The function generated from the opcodes of a program returns the value the tree means, for all values and whatever `+` makes of them; spilled variables and joined content notwithstanding |
| HandlebarsRendering.ProgramRenders | swagger/lib/handlebars-4.0.5.js:1159-1161 | That value is shown as the texts of all statements in order, provided no sum starts with two values that are no texts |
| HandlebarsRendering.ProgramRendersIff | swagger/lib/handlebars-4.0.5.js:3567-3623 | For a program without ambiguous blocks it is shown so if and only if that holds, or for one statement if nothing after its first piece has any text; supposing that a sum of values that are no texts never prints as those values in a row |
| HandlebarsRendering.ProgramRendersExactly | swagger/lib/handlebars-4.0.5.js:3567-3623 | The same for every program, ambiguous blocks included, where such a sum prints less than its values in a row |
| HandlebarsExamples.SmallSums | swagger/lib/handlebars-4.0.5.js:3574-3580 | A runtime with texts, whole numbers, NaN and undefined meets what those two theorems suppose of `+` |
| HandlebarsExamples.TwoValuesAreAdded | swagger/lib/handlebars-4.0.5.js:3574-3580 | `{{{a}}}{{{b}}}` returns the sum of its two values, in every runtime |
| HandlebarsExamples.NumbersAreAdded | swagger/lib/handlebars-4.0.5.js:3574-3580 | In a runtime whose `+` adds numbers and else concatenates, the values 1 and 2 are shown as 3, not as 12 |
| HandlebarsNesting.BlockProgramMeans | swagger/lib/handlebars-4.0.5.js:1197-1215 | A helper that runs a program below any statement, with whatever context, data and block parameters, gets the value that program means in the frame it enters; a context passed again gets no depth of its own |
| HandlebarsNesting.InnerSees | swagger/lib/handlebars-4.0.5.js:1197-1215 | In that frame the passed context comes first, then those of the block, one depth further out unless the block's own is passed again; the passed data replace the block's; the block parameters are those passed, then those of the block |
| HandlebarsNesting.SectionShows | swagger/lib/handlebars-4.0.5.js:592-628 | `{{#foo}}..{{/foo}}` with an object that is no helper shows what its program means with that object as context |
| HandlebarsCodeGen.Compiler.AcceptPath | swagger/lib/handlebars-4.0.5.js:3032-3051 | Appends exactly the opcodes of the path |
| HandlebarsCodeGen.Compiler.Accept | swagger/lib/handlebars-4.0.5.js:2844-2854 | Appends exactly the opcodes of the expression, by its type |
| HandlebarsCodeGen.Compiler.AcceptCall | swagger/lib/handlebars-4.0.5.js:2958-3030 | Appends exactly the opcodes of the call, by its kind, as HandlebarsCalls.KindIs tells it |
| HandlebarsCodeGen.Compiler.Invoke | swagger/lib/handlebars-4.0.5.js:3014-3030 | Appends the call opcode, after the path unless the helper is known |
| HandlebarsCodeGen.Compiler.PushParams | swagger/lib/handlebars-4.0.5.js:3138-3142 | Appends the parameters' opcodes in source order |
| HandlebarsCodeGen.Compiler.AcceptHash | swagger/lib/handlebars-4.0.5.js:3073-3087 | Appends the values in order and the keys in reverse order between opening and closing the hash |
| HandlebarsCodeGen.Compiler.CompileChild | swagger/lib/handlebars-4.0.5.js:2830-2842 | Compiles a nested program with a compiler of its own and gives it the next guid, or passes on its error |
| HandlebarsCodeGen.Compiler.AcceptProgram | swagger/lib/handlebars-4.0.5.js:2856-2871 | Leaves the opcodes and nested environments of the program, with the block parameters put back, or the error of the first refused statement |
| HandlebarsCodeGen.Compiler.AcceptStatement | swagger/lib/handlebars-4.0.5.js:2873-2977 | Appends exactly the opcodes and nested environments of the statement, or refuses a partial with several arguments |
| HandlebarsCodeGen.Compiler.AcceptBlock | swagger/lib/handlebars-4.0.5.js:2873-2907 | Appends the opcodes of the call and of its fix-up |
| HandlebarsCodeGen.Compiler.AcceptDecorator | swagger/lib/handlebars-4.0.5.js:2909-2916 | Appends parameters, programs, hash and the registration, in that order |
| HandlebarsCodeGen.Compiler.AcceptPartialFrame | swagger/lib/handlebars-4.0.5.js:2918-2940 | Appends name and context of a partial in the order the compiler has, the undefined context first |
| HandlebarsCodeGen.Compiler.AcceptPartial | swagger/lib/handlebars-4.0.5.js:2941-2953 | Appends programs, hash, prevented indent and the call of a partial |
| HandlebarsCodeGen.JavaScriptCompiler.PopStack | swagger/lib/handlebars-4.0.5.js:4239-4255 | Removes and gives the top of the inline stack, else of the spilled one, counting slots; or 'Invalid stack pop' |
| HandlebarsCodeGen.JavaScriptCompiler.NextStack | swagger/lib/handlebars-4.0.5.js:4210-4218 | Gives the next stack variable and declares it once |
| HandlebarsCodeGen.JavaScriptCompiler.Replace | swagger/lib/handlebars-4.0.5.js:4171-4208 | Rewrites the inline top, keeping code in the next variable while it is used; or 'replaceStack on non-inline' |
| HandlebarsCodeGen.JavaScriptCompiler.WriteSource | swagger/lib/handlebars-4.0.5.js:4160-4169 | Writes a line after the pending content |
| HandlebarsCodeGen.JavaScriptCompiler.FlushInlineStack | swagger/lib/handlebars-4.0.5.js:4220-4237 | Moves the inline stack to the spilled one, code going through new variables in order |
| HandlebarsCodeGen.JavaScriptCompiler.Setup | swagger/lib/handlebars-4.0.5.js:4313-4381 | Pops hash, inverse, program and the parameters, which end up in source order |
| HandlebarsCodeGen.JavaScriptCompiler.Resolve | swagger/lib/handlebars-4.0.5.js:3788-3821 | Applies one guarded lookup per path segment |
| HandlebarsCodeGen.JavaScriptCompiler.Helper | swagger/lib/handlebars-4.0.5.js:3942-3978 | Pushes the call of a callee on the frame's parameters and options |
| HandlebarsCodeGen.JavaScriptCompiler.AmbiguousHelper | swagger/lib/handlebars-4.0.5.js:3980-4004 | Pushes the helper-or-value call and remembers the helper's name |
| HandlebarsCodeGen.JavaScriptCompiler.Partial | swagger/lib/handlebars-4.0.5.js:4006-4041 | Pushes the call of a partial, its name popped if dynamic and then left out of its options |
| HandlebarsCodeGen.JavaScriptCompiler.BlockHelper | swagger/lib/handlebars-4.0.5.js:3634-3649 | Pushes the block-missing call on the popped value |
| HandlebarsCodeGen.JavaScriptCompiler.AmbiguousBlock | swagger/lib/handlebars-4.0.5.js:3651-3669 | Spills the stack and writes the fix-up guarded by the last helper, on the options that the variable keeps, not on those set up here |
| HandlebarsCodeGen.JavaScriptCompiler.AssignKey | swagger/lib/handlebars-4.0.5.js:4043-4068 | Stores the popped value under its key as an array property would |
| HandlebarsCodeGen.JavaScriptCompiler.OpenHash | swagger/lib/handlebars-4.0.5.js:3860-3868 | Opens a hash, keeping an enclosing one |
| HandlebarsCodeGen.JavaScriptCompiler.ShutHash | swagger/lib/handlebars-4.0.5.js:3866-3879 | Closes the hash into an object literal, or fails if it stored `hasOwnProperty`, and reopens the enclosing one |
| HandlebarsCodeGen.JavaScriptCompiler.AppendTopOfStack | swagger/lib/handlebars-4.0.5.js:3690-3710 | Appends an inline value as text or empty, a spilled one guarded |
| HandlebarsCodeGen.JavaScriptCompiler.Execute | swagger/lib/handlebars-4.0.5.js:3379-3431 | One opcode moves the object exactly as the machine specification steps, errors included |
| HandlebarsCodeGen.JavaScriptCompiler.Compile | swagger/lib/handlebars-4.0.5.js:3379-3431 | Running all opcodes in place and merging the lines gives exactly the specified function or error, including the check for content left on the stack |
| InfluxProtocol.StepKeepsInv | lib/monitor/influx.go:239-322 | Every atomic action of every goroutine keeps the invariant: one mutex holder, points leaving oldest first, fates counted, sizes positive, a full buffer having a wake-up on the way |
| InfluxProtocol.Conservation | lib/monitor/influx.go:239-322 | In every interleaving: points appended = dropped + in flight + flushed + failed + buffered; buffer and batch are consecutive stretches of what was appended; the points sent are, in order, those not dropped; the buffered counter equals buffer plus unsubtracted batch plus a point being counted, and the clamp at zero never fires |
| InfluxProtocol.WriteCanEnd | lib/monitor/influx.go:307-322 | A write in progress can always end, with success or failure, in every reachable state |
| InfluxProtocol.NoLostWakeUp | lib/monitor/influx.go:239-302 | In every interleaving whose reconfigurations never lower the size, a full buffer has a pending token, a goroutine about to send one, or a flush loop awake that has not taken it, or the flush loop has returned, which it does only if the writer was closed; and the buffer never exceeds the size |
| InfluxWriters.CappedBySize | lib/monitor/influx.go:239-264 | Told by the configured number: with a last configured size n > 0 there are never more than n points in the buffer, and with n points the flush loop is or will be told; for a size that is not positive the same with 1000 |
| InfluxWriters.LowersIff | lib/monitor/influx.go:243-245 | What lowering means: a new size counts as lower exactly if it is below the old one, with 1000 for sizes that are not positive |
| InfluxWriters.ResizeSafeIffNotLowered | lib/monitor/influx.go:113-154 | Reconfiguring a running writer keeps the wake-up property at every moment if and only if the effective buffer size is not lowered |
| InfluxWriters.SoloEnqueue | lib/monitor/influx.go:239-264 | The six actions of an uninterrupted `enqueue` amount to: drop the oldest point if full, else count; append; signal if full |
| InfluxWriters.EnqueueBySize | lib/monitor/influx.go:239-264 | Told by the configured number: an uninterrupted `enqueue` drops the oldest point if and only if the buffer has at least that many, counts the point otherwise, appends it last, and leaves a token if the buffer then has that many |
| InfluxWriters.SoloFlush | lib/monitor/influx.go:286-322 | The five actions of an uninterrupted flush amount to: empty the buffer, subtract it from the counter, and book the whole batch as flushed or failed |
| InfluxWriters.FlushTakesAll | lib/monitor/influx.go:286-322 | An uninterrupted flush hands over all points in order, empties the buffer, subtracts them from the counter and adds them to the flushed or the failed ones |
| InfluxWriters.WakesAre | lib/monitor/influx.go:273-283 | The waiting flush loop is woken by its tick, by a token, which is used up, and after `Close` for a last flush; a counter below zero becomes zero |
| InfluxWriters.StartsEmpty | lib/monitor/influx.go:63-79 | A new writer has its client, an empty buffer, counters at zero, no token, and a flush loop that waits |
| InfluxWriters.InfluxWriter.Enqueue | lib/monitor/influx.go:239-264 | The statements of `enqueue` extend the object's life by exactly the protocol events of one enqueue, and leave buffer, counter and token as InfluxWriters.EnqueueBySize says, with the size written out |
| InfluxWriters.InfluxWriter.Flush | lib/monitor/influx.go:286-322 | The statements of `flush` extend the object's life by exactly the protocol events of one flush, of an empty or a nonempty buffer |
| InfluxWriters.InfluxWriter.Rest | lib/monitor/influx.go:24-51 | Whenever no call is under way, the buffered counter equals the buffer's length and all points are accounted for |
| InfluxCounters.RotationAgrees | lib/monitor/influx.go:162-183 | Rotation by any forward jump, or backwards, keeps every slot equal to the sum of the logged events of its hour class inside the last 24 hours |
| InfluxCounters.WindowIsADay | lib/monitor/influx.go:84-97 | The window of the log is its last 24 hours, the current one included |
| InfluxCounters.BumpAgrees | lib/monitor/influx.go:185-205 | Counting keeps that agreement if and only if the clock is less than 24 hours behind the latest hour seen |
| InfluxCounters.HourZeroIsNeverCleared | lib/monitor/influx.go:162-166 | A day or more after the first count the slots agree with the log if and only if that count was not in hour 0, which is taken for 'none seen yet' |
| InfluxCounters.SlotSumsTotal | lib/monitor/influx.go:84-97 | Each event of the 24-hour window stands in exactly one slot, so the slots add up to the window's sum |
| InfluxCounters.Counters.RotateBuckets | lib/monitor/influx.go:162-183 | The loop clears exactly the slots of the hours passed, in both rings, and keeps the agreement with the event logs |
| InfluxCounters.Counters.BumpFlushed | lib/monitor/influx.go:185-194 | Adds to the slot of the hour after rotating; the agreement survives if and only if the clock is not 24 hours back |
| InfluxCounters.Counters.BumpErrors | lib/monitor/influx.go:196-205 | The same for failures; the other ring only rotates |
| InfluxCounters.Counters.Stats | lib/monitor/influx.go:84-97 | The two sums over all slots are the exact sums of the logged events of the last 24 hours |
| ToFixed.Helpers.Multiply | swagger/lib/es5-shim.js:1602-1610 | value' = (n * value + c) mod 10^42, every limb below 10^7, every intermediate exact in a double |
| ToFixed.Helpers.Divide | swagger/lib/es5-shim.js:1611-1619 | value' = value / n rounded down, every intermediate exact in a double |
| ToFixed.Helpers.NumToString | swagger/lib/es5-shim.js:1620-1634 | The string is the decimal numeral of the value, limbs padded to seven digits, no leading zeros |
| ToFixed.PowIsPower | swagger/lib/es5-shim.js:1635-1637 | Fast exponentiation with an accumulator is multiplication by the power |
| ToFixed.ScaleUp | swagger/lib/es5-shim.js:1697-1705 | Multiplying by 10^7 in chunks and by the rest is multiplication by 10^f; nothing overflows the six limbs |
| ToFixed.ShiftDown | swagger/lib/es5-shim.js:1706-1713 | Dividing by 2^23 in chunks and by the rest is one floor division by the power of two |
| ToFixed.Digits | swagger/lib/es5-shim.js:1692-1720 | The digits are the numeral of z / 2^e * 10^f rounded to the nearest integer, halves up, for either sign of e |
| ToFixed.PlacePoint | swagger/lib/es5-shim.js:1722-1732 | The text is the integer part of n / 10^f, a point and exactly f decimals, short numerals padded with zeros |
| ToFixedAnswers.FixedNumeralMeans | swagger/lib/es5-shim.js:1722-1732 | The text has the integer part without leading zeros, a point and exactly f decimals if f > 0, and its digits are the number printed |
| ToFixedShim.Log | swagger/lib/es5-shim.js:1638-1650 | The loop finds n with 2^n <= x < 2^(n+1) |
| ToFixedShim.Format | swagger/lib/es5-shim.js:1653-1736 | `toFixed` prints sign and fixed-point numeral of the integer nearest to |x| * 10^f, ties to the larger, as section 15.7.4.5 of ECMA-262 edition 5.1 demands; RangeError exactly outside 0 to 20; NaN and numbers from 1e21 on as themselves |
| ToFixedAnswers.SignIff | swagger/lib/es5-shim.js:1675-1680 | There is a minus sign exactly for numbers below zero |
| ToFixedAnswers.RangesAre | swagger/lib/es5-shim.js:1670-1685 | Numbers of magnitude 10^21 and above are left to String; the excluded ones are above 10^-21 and below 2^-69 |
| ToFixedAnswers.DoublesAre | swagger/lib/es5-shim.js:1687-1693 | Finite doubles have 53 significant bits, the leading one set unless they are subnormal |
| ToFixedAnswers.Widths | swagger/lib/es5-shim.js:1598-1601 | Six limbs of seven digits, and intermediates below 2^53 |
| ToFixedAnswers.KnownAnswers | swagger/lib/es5-shim.js:1591-1596 | The answers the shim asks of an engine: 0.00008 with 3 decimals is 0.000, 0.9 with none is 1, 1.255 with 2 is 1.25, and -0.9 is -1 |
| ToFixedAnswers.LargeAnswer | swagger/lib/es5-shim.js:1591-1596 | And 1000000000000000128 keeps all its digits |
| ToFixedShim.NearestLargerMeaning | swagger/lib/es5-shim.js:1653-1736 | No integer is nearer to the scaled number than the one printed, and none as near is larger |
| ToFixedShim.RoundedIsNearest | swagger/lib/es5-shim.js:1692-1720 | The integer that limb arithmetic gives is the nearest one to the real number scaled |
| ToFixedShim.Normalised | swagger/lib/es5-shim.js:1677-1684 | The logarithm step finds the position of the leading bit of every double in range, so z is its 53-bit mantissa and -18 < e < 122 |
| Splice.JsArray.Splice | swagger/lib/es5-shim.js:798-858 | In place, for all starts and counts, holes included: the array becomes prefix, items, suffix as section 15.4.4.12 of ECMA-262 edition 5.1 has it; the removed slots are returned without the holes at their end |
| Splice.JsArray.ShiftDown | swagger/lib/es5-shim.js:820-841 | Moving the tail down and deleting what is left over overwrites no slot still to be read |
| Splice.JsArray.ShiftUp | swagger/lib/es5-shim.js:842-854 | Moving the tail up from its end overwrites no slot still to be read |
| Splice.JsArray.Removed | swagger/lib/es5-shim.js:807-814 | The returned array holds the removed slots; its length ends with the last one present |
| Splice.RemovedIsSliceIff | swagger/lib/es5-shim.js:807-814 | The returned array is the whole removed slice if and only if that slice does not end in a hole |
| Splice.ActualDeleteCount | swagger/lib/es5-shim.js:803-804 | Start and count after clamping stay inside the array |
| Splice.StartIs | swagger/lib/es5-shim.js:803-804 | A start inside the array stays, a negative one counts from the end, one beyond an end is that end |
| Splice.CountIs | swagger/lib/es5-shim.js:805-805 | As many slots are deleted as asked for, none if that is negative, no more than follow the start |
| Splice.SplicedIs | swagger/lib/es5-shim.js:803-860 | With start and count inside the array exactly the slots between them are replaced by the items; any other start or count does what the nearest one inside does |
| NumToStr.Num2Str | lib/funcmap.go:93-115 | The loop puts a separator exactly before each non-leading digit with a multiple of three digits left, itself included, sign in front |
| NumToStr.SeparatorsRemoved | lib/funcmap.go:93-115 | For every integer, removing the separators gives back the plain decimal text |
| NumToStr.SpreadIsGrouped | lib/funcmap.go:93-115 | The digits come in groups of three from the right |
| NumToStr.GroupedExamples | lib/funcmap.go:93-115 | 1234567 is printed as 1,234,567, and 123 and 12 without a separator |
| RetentionTables.MergeKeepsSum | lib/monitor/retention.go:21-39 | Grouping rows by name and start keeps every column's sum per name |
| RetentionTables.MergeDistinct | lib/monitor/retention.go:21-39 | An aggregation inserts one row per name and hour or day |
| RetentionTables.DailyRollKeepsTotals | lib/monitor/retention.go:51-91 | Rolling hourly rows up into days and pruning them conserves bytes in, bytes out and session count per name over both tables, up to exactly the rows between the two cutoffs; equal cutoffs lose nothing |
| RetentionTables.DailyRollOrFail | lib/monitor/scraper.go:299-307 | Whether aggregation and prune of the hourly rows work or fail, each by itself: the totals grow by exactly the rows an aggregation rolled up and shrink by exactly the rows a prune removed |
| RetentionJob.Tables.AggregateSamplesToHourly | lib/monitor/retention.go:18-47 | Appends exactly one row for each name and hour in which a session of the name has a sample before the cutoff, holding the sums over those sessions of MAX - MIN and the number of those sessions, each once; the other tables stay |
| RetentionJob.HourlyIs | lib/monitor/retention.go:21-39 | Grouping by session and hour and then by name and hour computes those sums, for every table |
| RetentionJob.SessionsCounted | lib/monitor/retention.go:29-41 | The number of a row is the cardinality of the set of sessions that have a sample of that hour before the cutoff, under that name |
| RetentionJob.BucketEncloses | lib/monitor/retention.go:35-39 | Every sample of a session's hour before the cutoff lies between the bounds of its bucket |
| RetentionTables.HourAndDay | lib/monitor/retention.go:26-26 | The hour of a time is the multiple of 3600 seconds at or before it, less than an hour before; its day likewise the multiple of 86400 |
| RetentionJob.BucketMeans | lib/monitor/retention.go:30-38 | The bounds of a session's hour are met by samples of it and hold for all of them |
| RetentionJob.Tables.AggregateHourlyToDaily | lib/monitor/retention.go:51-71 | Appends exactly one row for each name and day with an hourly row before the cutoff, holding the sums of those rows |
| RetentionJob.DailyIs | lib/monitor/retention.go:56-66 | Grouping by name and day computes those sums, for every table |
| RetentionJob.Tables.PruneOldSamples | lib/monitor/retention.go:75-81 | A sample stays, as often as it was there and in order, if and only if it is not before the cutoff |
| RetentionJob.Tables.PruneOldHourly | lib/monitor/retention.go:85-91 | An hourly row stays, as often as it was there and in order, if and only if it is not before the cutoff |
| RetentionJob.Tables.RunRetention | lib/monitor/scraper.go:295-312 | One round changes each name's total over both tables by the new hourly rows minus the rows between the two hourly cutoffs |
| RetentionRuns.ChosenSum | lib/monitor/retention.go:18-47 | The deltas an hourly aggregation inserts are exactly the growth between consecutive samples of a session that it selects in the same hour |
| RetentionRuns.StepKeepsInv | lib/monitor/retention.go:18-91 | Every insert and statement keeps the books: the sample table, what became of each sample, and the tables' totals |
| RetentionRuns.RetentionAccounts | lib/monitor/retention.go:18-91 | In every run with samples arriving between the statements, and hourly aggregations that work or fail: rollup tables, pruned hourly rows and the gaps between buckets add up to exactly the sum over a name's sessions of last minus first counter |
| RetentionRuns.TablesNeverExceedTransfer | lib/monitor/retention.go:18-91 | Between rounds the hourly and daily tables never hold more, per name and direction, than its sessions transferred |
| RetentionRuns.EachSampleAggregatedOnce | lib/monitor/retention.go:18-47 | In every run each sample enters at most one hourly aggregate |
| RetentionRuns.AggregatingAgain | lib/monitor/scraper.go:295-307 | If the prune of a round fails, the next aggregation, with the same or any later cutoff, counts a sample twice exactly when the first one selected any |
| RetentionRuns.FailedPruneOvercounts | lib/monitor/scraper.go:295-307 | Concrete samples for which the hourly table then holds twice what was transferred |
| RetentionRuns.FailedAggregateLoses | lib/monitor/scraper.go:295-307 | A round whose hourly aggregation fails and whose prune works leaves the same samples as one in which both work, with less in the books by exactly the growth between samples of one hour that the aggregation would have inserted; all samples it pruned are lost uncounted |
| RetentionRuns.LostStaysLost | lib/monitor/scraper.go:295-307 | In every continuation a lost sample stays lost and adds nothing to any aggregate |
| RetentionRuns.FailedAggregateExample | lib/monitor/scraper.go:295-307 | Two samples of which such a round leaves nothing in any table, where their session transferred ten bytes |
| Sessions.FindActive | models/monitor.go:77-88 | The first active row of the name with that address and connect time, if there is one |
| Sessions.Newest | controllers/monitor.go:417-428 | The active row of the name that connected last, the first of those; none exactly if the name has no active row |
| Sessions.Database.FindActiveSession | models/monitor.go:77-98 | The loop finds exactly that row |
| Sessions.Database.UpsertSession | lib/monitor/scraper.go:218-242 | Gives the matching active row, or inserts one with the connect time picked; refuses an empty name |
| Sessions.Database.CloseMissingSessions | lib/monitor/scraper.go:245-263 | Closes exactly the active rows not seen, with duration in whole seconds, and writes each |
| Sessions.Database.ScrapeOnce | lib/monitor/scraper.go:164-214 | The whole scrape: upsert, sample and counters client by client, then the missing rows |
| Sessions.ScrapeClientIs | lib/monitor/scraper.go:180-209 | Field by field: a named client with a connect time and an active row keeps that row, else an active row with its name, addresses, counters and connect time, or now, is inserted; a sample of that row with the client's addresses and counters is added; the row's counters become the client's |
| Sessions.StaleClosedIs | lib/monitor/scraper.go:254-256 | A missing row becomes closed at the time of the scrape, with the whole seconds since it connected as duration; its other fields stay |
| Sessions.CloseMissingIs | lib/monitor/scraper.go:245-263 | Exactly the active rows that were not seen are closed so, and each is written with its own name, addresses and counters |
| Sessions.Database.Post | controllers/monitor.go:406-470 | The hook closes the exact match, else the newest active session, else inserts a closed record; empty addresses keep the row's; all fields as Sessions.HookIs says |
| Sessions.SelectedIs | controllers/monitor.go:407-423 | The hook selects a row if and only if an active row has the name: the one of that address and connect time, a connect time given, else one that no active row of the name connected after |
| Sessions.HookIs | controllers/monitor.go:424-462 | Field by field: a selected row gets the counters, duration and disconnect time of the payload and its addresses where not empty, else a closed row with the name, addresses, counters and duration of the payload, connected its duration before now, is inserted; the session written has the name, addresses, counters and duration of that row, at that time |
| SessionRuns.ScrapeTracksClients | lib/monitor/scraper.go:177-263 | After a scrape of clients with connect times, in any order and from any table, the active rows are exactly one per listed connection of a named client |
| SessionRuns.RescrapeIsIdle | lib/monitor/scraper.go:177-263 | Scraping the same clients again leaves the session table and the sessions written unchanged and adds one sample per named client |
| SessionRuns.ActiveArePicked | lib/monitor/scraper.go:164-270 | After a scrape of any clients, with or without connect times, the active rows are those of the listed connections, a client without a connect time counting as connected at the scrape |
| SessionRuns.RescrapeIdleIff | lib/monitor/scraper.go:218-270 | Scraping the same clients again inserts exactly one row per named client without a connect time, so it leaves the session table unchanged if and only if there is none |
| SessionRuns.UntimedReopens | lib/monitor/scraper.go:218-270 | The session of a client without a connect time is closed and written by the next scrape, which opens another |
| SessionRuns.AnyOrderIsSame | lib/monitor/scraper.go:177-209 | When no connection is listed twice, any order of the list counts as the same clients |
| SessionRuns.ScrapedRows | lib/monitor/scraper.go:177-209 | When clients with connect times are scraped, rows not seen stay, rows seen change in their counters only and hold the last client's, new rows are seen |
| SessionHistory.WritesAreClosedRows | lib/monitor/scraper.go:164-263 | In every run of atomic scrapes and hooks, the sessions handed to `WriteSession` are exactly the closed rows, each once and with its final data, and every active row shows its newest sample |
| SessionHistory.ClosedStaysClosed | models/monitor.go:64-72 | Under any interleaving of the single statements a closed session stays closed, and a row's name and connect time never change |
| SessionHistory.WritesUnderInterleaving | controllers/monitor.go:434-470 | Under any interleaving of statements there are at least as many `WriteSession` calls as newly closed rows, and as many if and only if no statement closes a closed row |
| SessionHistory.HookDuringScrape | controllers/monitor.go:411-470 | A hook's statement put anywhere among those of a scrape that read the same table: some row is closed and written twice if and only if the hook selected one that the scrape lists as active and did not see |
| SessionHistory.WrittenTwice | lib/monitor/scraper.go:245-263 | A concrete table, scrape and hook, and an interleaving of the statements they compute from it, that closes one row and calls `WriteSession` twice |
| SessionHistory.OperationIsStatements | lib/monitor/scraper.go:177-263 | What an atomic operation does to the session table is done by its column-limited statements one after the other |
| SessionSteps.WrittenPerClaim | lib/monitor/scraper.go:245-263 | In every interleaving of the reads and statements of a scraper and any number of hooks, a row was written once for every goroutine that read it as active and has closed it; it is closed if and only if it was written |
| SessionSteps.ClaimsAreActive | models/monitor.go:89-110 | Such a claim is made by a read only, for a row that is active then, or for a new closed record |
| SessionSteps.CountersAfterHook | lib/monitor/scraper.go:196-203 | In every continuation after a hook closed a row and no other hook does: once the scraper is past the row, its counters are the hook's final ones, or those of the status log if and only if the scraper had looked the row up before the hook's update and counted after |
| SessionSteps.CountersLost | lib/monitor/scraper.go:177-203 | A concrete interleaving after which a closed session holds the older counters |
| SessionSteps.SoloHook | controllers/monitor.go:410-475 | The steps of an uninterrupted hook amount to the atomic operation |
| SessionSteps.SoloScrape | lib/monitor/scraper.go:164-263 | The steps of an uninterrupted scrape amount to the atomic operation |
| ServerConf.ParseLines | lib/serverconf.go:21-44 | The loop gives the units of the parse: lines with key and trimmed text, inline blocks up to their closing line or the end |
| ServerConf.FormOwns | lib/serverconf.go:47-54 | Collects exactly the directive names, commented-out ones included, and the keys of a text |
| ServerConf.KeepHandLines | lib/serverconf.go:59-75 | The loop keeps exactly the units neither render holds and the new one does not own, the first of each key, in order; ServerConfDirectives.KeptIff says which with the four directives written out |
| ServerConf.SaveServerConfig | controllers/ovconfig.go:155-180 | Writes the render alone, or the render, the header and the kept lines; see ServerConfDirectives.SavedFileIs |
| ServerConfDirectives.KeptIff | lib/serverconf.go:59-75 | A unit of the file is kept if and only if it is active, neither render holds its key, its directive is `push`, `route`, `iroute` or `setenv` or one that the new render does not set, commented out or not, and no such unit with its key stands before it |
| ServerConfDirectives.SetsIs | lib/serverconf.go:46-54 | A render sets a directive exactly if a unit has that name, or that name after one number sign |
| ServerConfDirectives.OwnsIs | lib/serverconf.go:64-73 | A render owns a unit exactly if it holds the key, or sets the directive and that is none of the four |
| ServerConfDirectives.LineParses | lib/serverconf.go:25-41 | A line that opens no block gives nothing if it is blank or starts with a semicolon, else a unit with its first word as name, the words before a later word `#` as key and the trimmed line as text |
| ServerConfDirectives.SameKeyIff | lib/serverconf.go:38-41 | Two lines have the same key exactly if they have the same words before such a comment |
| ServerConfDirectives.BlockParses | lib/serverconf.go:29-36 | A line whose first word is a tag opens a block up to the line that is its closing tag, or to the end; name is the tag, key and text are its lines |
| ServerConfDirectives.SavedFileIs | controllers/ovconfig.go:171-179 | The file is the render alone if nothing is kept, else the render, the header line written out, and the kept lines |
| TextMeanings.SpaceIs | lib/serverconf.go:25-25 | Space is what Go's `unicode.IsSpace` takes for it |
| TextMeanings.TrimIs | lib/serverconf.go:41-41 | Trimming takes away space at both ends and nothing else |
| TextMeanings.FieldsAre | lib/serverconf.go:25-25 | The fields of a line are its words between space |
| TextMeanings.LineEnds | lib/serverconf.go:23-23 | Lines end in a newline, or in a carriage return and a newline |
| ServerConfRuns.ParseConcat | lib/serverconf.go:21-44 | Parsing goes through a text whose blocks end and then on, so a file can be parsed part by part |
| ServerConfBlocks.KeptTextRoundTripIff | lib/serverconf.go:59-75 | Re-parsing the kept text gives back exactly the kept units if and only if no kept block has a line before its last that ends in CR and none but the last kept one ends in CR; keys are distinct and the units a subsequence of the file's |
| ServerConfBlocks.ReturnIsLost | lib/serverconf.go:23-36 | A concrete block that is kept with a carriage return and read back without it |
| ServerConfRuns.FileParses | controllers/ovconfig.go:155-180 | Every file of a run of saves parses to its render, the header and its hand section |
| ServerConfRuns.HandSectionShrinks | controllers/ovconfig.go:155-180 | The hand section after a save is the one after the save before, in order, without what the new render owns |
| ServerConfRuns.SurvivesIffUnowned | controllers/ovconfig.go:155-180 | After any number of saves a unit is in the hand section, exactly once, if and only if it was in the first and no render since owns it |
| ServerConfDirectives.InSectionIff | controllers/ovconfig.go:155-180 | Told by keys and directives: a unit of the first hand section is in a later one exactly if no render since holds its key, or sets its directive without that being `push`, `route`, `iroute` or `setenv` |
| ServerConfDirectives.FourStay | lib/serverconf.go:12-12 | A `push`, `route`, `iroute` or `setenv` line of the file, the first of its key, is in every later hand section as long as no render holds that key |
| ServerConfDirectives.OthersGo | lib/serverconf.go:68-70 | A unit with any other directive is in no hand section once a render has set that directive, commented out or not |
| ServerConfRuns.NoRenderLeaks | controllers/ovconfig.go:155-180 | No line of any render so far, or of the settings before the run, is in the hand section |
| ServerConfRuns.NothingActiveLost | lib/serverconf.go:56-75 | Every active unit of the old file is in the new one by key, or the new render sets its non-repeatable directive, or the former render held it |
| ServerConfBlocks.HandSectionStableIff | lib/serverconf.go:29-36 | The next save reads back exactly the section written if and only if its last unit is not an inline block without its end; such a block is read back longer by a newline |
| ServerConfBlocks.BlockGrowsWithEverySave | controllers/ovconfig.go:155-180 | Over any run of saves whose renders own none of the section, such a block has grown by as many newlines as there were saves, and the rest of the section stays |
| ServerConfBlocks.OpenBlockGrows | lib/serverconf.go:29-36 | A concrete file with such a block, and what the file after the next save parses to |
| StatusLog.ParseStatusLog | lib/monitor/statuslog.go:33-112 | The section machine over all lines gives the map of the events that the lines tell |
| StatusLog.ClientsExpected | lib/monitor/statuslog.go:40-126 | For every input the result holds each connection once, as its last client line has it, with its own virtual address if not empty, else the first nonempty one routed to it after that line, else none |
| StatusLog.KeysEqualIff | lib/monitor/statuslog.go:115-117 | For names without NUL and ports without a colon, two keys are equal if and only if the names are and either address and port are, or one side has no port and its address is the other's address, a colon and the other's port |
| StatusLog.KeyInjective | lib/monitor/statuslog.go:115-117 | So keys are distinct for distinct name, address and port, given nonempty ports |
| StatusLog.KeyCollision | lib/monitor/statuslog.go:115-117 | Two different connections with the same key, one without a port |
| StatusLogLayouts.LayoutsAgree | lib/monitor/statuslog.go:40-191 | The same connections and routes printed in either layout parse to the same clients |
| StatusLogLayouts.PrintedParsesBack | lib/monitor/statuslog.go:40-191 | With distinct connections, parsing a printed log gives back exactly the connections with their first routed address |
| StatusLogLayouts.ClientV2RowParses | lib/monitor/statuslog.go:130-148 | A printed client row of the plain layout parses to its client, 64-bit counters and connect time included |
| StatusLogLayouts.ClientV3RowParses | lib/monitor/statuslog.go:165-181 | A printed row of the CLIENT_LIST layout parses to its client, with its own virtual address column |
| StatusLogFields.ClientV2Any | lib/monitor/statuslog.go:130-149 | Any row of the plain layout: with fewer than five fields it is no client; else name, address, counters and connect time come from its columns, the last from the sixth if that is a positive number, and from the textual date otherwise, also where there are only five |
| StatusLogFields.ClientV3Any | lib/monitor/statuslog.go:165-181 | Any CLIENT_LIST row: with fewer than nine fields it is no client; else its fields come from their columns, the virtual address among them |
| StatusLogFields.RouteAny | lib/monitor/statuslog.go:153-191 | Any routing row gives its address to the connection of its name and real address |
| StatusLogFields.DigitsValue | lib/monitor/statuslog.go:137-138 | A column of digits, with a sign or without, counts as its number, or the nearest one that 64 bits hold; it is accepted exactly if it fits |
| StatusLogFields.NoNumber | lib/monitor/statuslog.go:137-138 | A column that has another character after its digits, or no digit, counts as 0 and is not accepted |
| StatusLogFields.RowsCount | lib/monitor/statuslog.go:63-101 | Which rows count: tagged ones in every section, others in the client and routing sections of the plain layout only, without the column names |
| StatusLogFields.HeadingsCount | lib/monitor/statuslog.go:47-74 | Headings start their sections and count nothing; a HEADER line names the section it starts |

## Left out

- ToFixedShim.Format: leaves out doubles above 1e-21 and below 2^-69, which the logarithm step does not normalise and whose limbs are then halves; the floating-point operations it uses are exact for the others, so they are modelled over `real`.
- Splice.JsArray.Splice: the length is unbounded, without the RangeError past 2^32 - 1; getters, inherited elements and array-like objects other than arrays are not modelled.
- InfluxProtocol.NoLostWakeUp: says that somebody is on the way, not when; timers and scheduling are a nondeterministic tick. Runs that lower the size are covered by InfluxWriters.ResizeSafeIffNotLowered.
- InfluxProtocol.Conservation: is about writers built enabled; one first enabled by a failing `Reconfigure` may have its buffer replaced later. The InfluxDB client succeeds or fails, nothing more; the 64-bit counters do not wrap.
- RetentionRuns.RetentionAccounts: supposes that the statements other than the hourly aggregation succeed, in the job's order, each prune with a cutoff not before its aggregation, and that a session's counters and clock do not run backwards.
- Sessions.Database.Post: starts from the parsed payload; token check, JSON and status codes are not modelled. Failing statements are not modelled in this module.
- SessionSteps.WrittenPerClaim: has one scraper, as the program does; adding a sample and setting the counters are one step, since nothing else touches the sample table. Statements succeed.
- Sessions.Database.CloseMissingSessions: goes through the rows by id, where the query orders them by name and time; only the order of the writes differs. `DurationS` is truncated exactly, without the rounding of a floating-point number of seconds beyond 2^22.
- SessionRuns.ScrapeTracksClients: supposes connect times for one row per connection; which connections are active is told for all clients by SessionRuns.ActiveArePicked, and what a scrape without connect times adds by SessionRuns.RescrapeIdleIff.
- SessionRuns.ScrapedRows: supposes connect times, as the counters of a client without one go to a row of its own.
- ServerConf.SaveServerConfig: takes the render, the former render and the old file as texts; reading, rendering and file modes are not modelled.
- ServerConfRuns.FileParses: supposes that blocks end and that no line still ends in a carriage return after newline conversion, in the first file and in the renders; both failures are lemmas of their own.
- StatusLog.ParseStatusLog: takes the scanner's lines (so no line too long for its buffer) and two library functions, address splitting and textual dates, as parameters; the result is the map before it is listed in arbitrary order.
- StatusLogLayouts.LayoutsAgree: supposes fields without commas and surrounding space, first fields that are no row tags, and a virtual address column that is empty or agrees with the first route.
- HandlebarsCodeGen.JavaScriptCompiler.Compile: gives the code as a tree, not as text; register aliases, the matching of equal child programs and source maps are not modelled.
- HandlebarsRendering.ProgramMeans: takes helpers as functions of their arguments, and is about programs without hash keys `length`, `__proto__` and `hasOwnProperty` and without a dynamic partial whose context is left to `explicitPartialContext`; for those the code means something else, as the lemmas above show. Decorators may replace a program; they do not here.
- HandlebarsRendering.ProgramRendersIff: is about programs without ambiguous blocks, which return one sum. Those that return several are covered by HandlebarsRendering.ProgramRendersExactly, which supposes that sums print smaller than their summands in a row, as whole numbers do and fractions need not (0.1 + 0.2); there HandlebarsRendering.ProgramRenders goes one way.
- HandlebarsNesting.BlockProgramMeans: supposes of the runtime what `wrapProgram` does, that calling the function value of a program runs its code in the frame it enters.
- Handlebars' parser, whitespace control, precompiler output and runtime; the options `stringParams`, `trackIds`, `strict`, `assumeObjects`, `compat` and `knownHelpersOnly`; names that the known-helpers object inherits; the order of integer-like keys in an object literal.
- NumToStr.Num2Str: is about all integers; a separator that is a digit or a minus sign is excluded where separators are removed again.
- HTTP controllers, sessions, CSRF, OAuth, LDAP, certificates, Grafana proxy, templates, translations and the other vendored scripts: plumbing, or members that would only be easy.
