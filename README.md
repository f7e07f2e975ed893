# ChalkBox in Dafny

ChalkBox is an automated marking pipeline for programming assignments. A
box file names a collector stage, a processor stage and an output stage,
and it supplies each stage's configuration items. The collector gathers
submissions into named streams. Processors transform those streams one
pipe at a time, fanning each list out over worker threads. Outputs then
receive the streams they ask for. Each submission carries a results store:
a map from dotted keys to values.

This project models the following parts of ChalkBox and proves properties
about them:

- the driver, with its configuration, validation, collection, dependency
  ordering, pipes and output (`chalkbox.dfy`, module `Orchestration`);
- the worker fan-out (`process_runner.dfy`);
- the box-file parser (`box_config.dfy`);
- typed field assignment (`field_assigner.dfy`);
- the JUnit output parser (`junit_patterns.dfy`, `junit_parser.dfy`);
- the conformance checker, with its flags, comparators and the two
  components that drive them (`flags.dfy`, `comparators.dfy`,
  `conformance.dfy`);
- the CSSE2002 processors: tutor allocation, integrity flags and the JUnit
  "hack" (`allocate.dfy`, `integrity_removal.dfy`, `junit_hack.dfy`);
- the Blackboard gradebook collector (`blackboard_collector.dfy`);
- the Sleeping Coders support code used as a test fixture
  (`coders_game.dfy`).

Shared models live in their own files:

- `java_text.dfy` models the Java library behaviour the core relies on:
  `split` with its trailing-empty rule, `trim`, `readLine`,
  `Integer.parseInt`, the `.` to `\.` key escaping and `List.toString`.
- `results.dfy` models the results store.
- `wrappers.dfy` holds `Option` and `Result`.

Modelling choices:

- **Reflection.** It is replaced by explicit descriptors. A registry from
  class name to `Stage` stands in for `Class.forName`. Each descriptor
  lists the class's annotations, its configuration fields and what
  invoking each annotated method yields.
- **Uncaught exceptions.** They end the program. The driver records them
  in `crash`, after which nothing else runs. The parsers and processors
  return them as the `Failure` of a `Result`.
- **Stateful code stays imperative.** Code that updates objects in place
  is modelled as classes with `modifies` clauses: the driver, the parser
  objects, the field assigner, the processors, the turn manager and the
  game. Each of their methods is proved against a specification function,
  and the lemmas state what the source promises about that function.

Behaviour worth noting:

- **Chunk size.** Each worker gets `n / threads` items (Java integer
  division, so rounded down), but never fewer than one. Ten items over
  three workers are therefore run as chunks of 3, 3, 3 and 1, not
  rounded up to chunks of 4, 4 and 2 (`ProcessRunners.TenOverThree`).
- **Dependency cycles.** Only a processor that names itself as a
  dependency is detected, and it is skipped. A longer cycle recurses until
  the stack overflows (`Orchestration.MutualDependencyOverflows`).
- **Failing dependencies.** A dependency that raises the error flag does
  not stop the processor that depends on it. The flag is only consulted
  between the top-level phases (`Orchestration.ErrorStopsRun`).
- **Overloaded methods.** Each actual overload is compared with the last
  expected overload of the same name (`Comparators.OverloadFirstSub`).
  A class with two overloads of one name therefore reports a difference
  when it is compared with itself
  (`Comparators.OverloadsDifferFromThemselves`).
- **JUnit output.** `buildOutput` appends `errorMessages.get(key)` with
  no check, so a failure without a message would print `null` through
  `StringBuilder.append`. That never happens: every recorded failure gets
  a message when its header is read (`JUnitParsing.OutputWithoutNull`).

## Model

| member | source | states |
|---|---|---|
| Orchestration.ConfigLine | src/main/java/chalkbox/api/ChalkBox.java:168-175 | a comment line or a line without `=` leaves the configuration unchanged; any other line stores the text after its first `=` under the text before it, neither trimmed |
| Orchestration.LaterDuplicateWins | src/main/java/chalkbox/api/ChalkBox.java:172-174 | after a `key=value` line, the key maps to that value, whatever earlier lines assigned |
| Orchestration.SkippedLines | src/main/java/chalkbox/api/ChalkBox.java:168-174 | appending a comment line or a line without `=` does not change the configuration read |
| Orchestration.Missing | src/main/java/chalkbox/api/ChalkBox.java:80-103 | at most one report per configuration item (its exact content is stated by `MissingExactly`) |
| Orchestration.MissingKeys | src/main/java/chalkbox/api/ChalkBox.java:80-103 | the loop over the fields collects exactly the keys `Missing` specifies, in field order |
| Orchestration.MissingExactly | src/main/java/chalkbox/api/ChalkBox.java:80-103 | an item is reported missing exactly when it is required and its key is absent |
| Orchestration.HelpLines | src/main/java/chalkbox/api/ChalkBox.java:339-350 | one help line per configuration item, in declaration order |
| Orchestration.ClassHelp | src/main/java/chalkbox/api/ChalkBox.java:330-353 | the help text is built by appending the items' lines in order, and it equals the help text function |
| Orchestration.HelpOneLinePerItem | src/main/java/chalkbox/api/ChalkBox.java:339-350 | when keys and descriptions have no line breaks, reading the help text back line by line gives exactly one line per item |
| Orchestration.Assign | src/main/java/chalkbox/api/ChalkBox.java:196-209 | initialisation can fail only with IllegalArgumentException |
| Orchestration.AssignRaw | src/main/java/chalkbox/api/ChalkBox.java:196-209 | after initialisation, each configuration field holds its item's raw configured text (null when unconfigured), and other fields are unchanged |
| Orchestration.OptionalDefaultLost | src/main/java/chalkbox/api/ChalkBox.java:196-209 | an optional item that is not configured overwrites the field's default with null |
| Orchestration.PrimitiveFieldThrows | src/main/java/chalkbox/api/ChalkBox.java:204-208 | a primitive-typed configuration field, configured or not, makes initialisation throw IllegalArgumentException |
| Orchestration.ConfiguredReferenceFieldThrows | src/main/java/chalkbox/api/ChalkBox.java:204-208 | a configured field of a reference type other than String makes initialisation throw IllegalArgumentException (unconfigured, such a field is set to null, as `AssignRaw` states) |
| Orchestration.Collect | src/main/java/chalkbox/api/ChalkBox.java:214-260 | a class that is not a collector only sets the error flag; the run continues cleanly only with a real collector and no earlier error |
| Orchestration.ThrowingParserStops | src/main/java/chalkbox/api/ChalkBox.java:230-243 | a parser that throws stops collection with the error flag set, and no data set runs |
| Orchestration.ThrowingDataSetSkipped | src/main/java/chalkbox/api/ChalkBox.java:245-259 | a data set that throws leaves the streams as they were |
| Orchestration.NotAListStops | src/main/java/chalkbox/api/ChalkBox.java:247-251 | a data set that returns something other than a list ends collection: it and the later data sets store nothing |
| Orchestration.DataSetsKeepOthers | src/main/java/chalkbox/api/ChalkBox.java:245-259 | the data sets change only the streams they name |
| Orchestration.DataSetReplaces | src/main/java/chalkbox/api/ChalkBox.java:252-254 | a later data set for the same stream replaces the earlier list |
| Orchestration.Pipes | src/main/java/chalkbox/api/ChalkBox.java:294-299 | running pipes never changes the error flag |
| Orchestration.PipeReplacesStream | src/main/java/chalkbox/api/ChalkBox.java:294-299 | after a pipe, its stream holds the surviving results of the pipe's method over the old list, in order |
| Orchestration.PipeOnAbsentStream | src/main/java/chalkbox/api/ChalkBox.java:295-298 | a pipe whose stream is absent crashes with a NullPointerException |
| Orchestration.SelfDependencyIgnored | src/main/java/chalkbox/api/ChalkBox.java:269-273 | a processor whose dependencies all load and whose first dependency is itself returns at once, leaving the state unchanged |
| Orchestration.UnloadableDependencyCrashesFirst | src/main/java/chalkbox/api/ChalkBox.java:269 | a processor listing a class that does not load crashes with TypeNotPresentException when its `depends` array is read: no dependency runs, not even one listed earlier, and a self-dependency is not reached |
| Orchestration.UnloadableCrashesRun | src/main/java/chalkbox/api/ChalkBox.java:269-275 | running a list of dependencies that includes a class that does not load ends in a crash |
| Orchestration.NonProcessorSkipped | src/main/java/chalkbox/api/ChalkBox.java:263-266 | a class that is not a processor leaves the state unchanged |
| Orchestration.RunInOrderKeepsCrash | src/main/java/chalkbox/api/ChalkBox.java:269-275 | once an exception is raised while running dependencies, it is still raised after the rest of the list |
| Orchestration.DependenciesInOrder | src/main/java/chalkbox/api/ChalkBox.java:269-275 | with no self-dependency and no exception, the dependency loop runs every dependency in list order and does not stop early |
| Orchestration.DependencyRunsFirst | src/main/java/chalkbox/api/ChalkBox.java:269-284 | a processor that does not depend on itself runs all its dependencies in full, in list order and each with its own dependencies first, and only then its own `initClass` and pipes, whatever error flags the dependencies set |
| Orchestration.DependencyChainDepthFirst | src/main/java/chalkbox/api/ChalkBox.java:269-284 | with a depending on b and b on c, the stages run c, then b, then a |
| Orchestration.MutualDependencyOverflows | src/main/java/chalkbox/api/ChalkBox.java:269-275 | two processors that depend on each other end in a StackOverflowError |
| Orchestration.Deliveries | src/main/java/chalkbox/api/ChalkBox.java:319-326 | one delivery per output method, carrying the stream it names or null when that stream is absent |
| Orchestration.Resolve | src/main/java/chalkbox/api/ChalkBox.java:118-126 | a stage resolves exactly when its name is configured and is in the registry (`Class.forName`) |
| Orchestration.ErrorStopsRun | src/main/java/chalkbox/api/ChalkBox.java:128-140 | when the error flag is set, `run` does nothing more |
| Orchestration.ProcessErrorSkipsOutput | src/main/java/chalkbox/api/ChalkBox.java:128-140 | an error raised during processing means the output stage never runs |
| Orchestration.ChalkBox.constructor | src/main/java/chalkbox/api/ChalkBox.java:44-70 | the configuration is the box file's map; a missing file or a missing collector, processor or output key sets the error flag; an unloadable class crashes with NullPointerException; otherwise the missing required items are reported and the error flag is set exactly when there is one |
| Orchestration.ChalkBox.Open | src/main/java/chalkbox/api/ChalkBox.java:47-69 | after a readable box file: the configuration is the file's map; a missing collector, processor or output key sets the error flag with no report; otherwise the three class names are recorded, an unloadable class crashes with NullPointerException, and the error flag is set exactly when some required item is reported missing |
| Orchestration.ChalkBox.RequiredClassesPresent | src/main/java/chalkbox/api/ChalkBox.java:55-61 | true exactly when the configuration names a collector, a processor and an output |
| Orchestration.ChalkBox.ValidateStages | src/main/java/chalkbox/api/ChalkBox.java:67-69 | an unloadable stage crashes with NullPointerException; otherwise every missing required item of the three stages is reported, and the error flag is set exactly when there is one |
| Orchestration.ChalkBox.ValidateClass | src/main/java/chalkbox/api/ChalkBox.java:80-103 | an unknown class crashes with NullPointerException; otherwise its missing required items are appended to the reports and the error flag is raised when there is one |
| Orchestration.ChalkBox.LoadConfig | src/main/java/chalkbox/api/ChalkBox.java:164-179 | the configuration becomes the old one updated by the box file's lines; nothing else changes |
| Orchestration.ChalkBox.ValidateConfigItems | src/main/java/chalkbox/api/ChalkBox.java:80-103 | appends the missing items to the reports in order and raises the error flag exactly when one is missing |
| Orchestration.ChalkBox.InitClass | src/main/java/chalkbox/api/ChalkBox.java:182-212 | the instance's fields are those of the initialisation function: null for a non-instantiable class, otherwise the assigned fields or IllegalArgumentException |
| Orchestration.ChalkBox.ExecuteCollection | src/main/java/chalkbox/api/ChalkBox.java:214-260 | the streams, error flag and crash become those of the collection function; the configuration and stage names are unchanged |
| Orchestration.ChalkBox.RunPipes | src/main/java/chalkbox/api/ChalkBox.java:294-299 | the streams become those of the pipe function, each pipe computed with the worker pool |
| Orchestration.ChalkBox.RunStage | src/main/java/chalkbox/api/ChalkBox.java:280-299 | one processor is initialised and its pipes are run, as the stage function says |
| Orchestration.ChalkBox.ExecuteProcess | src/main/java/chalkbox/api/ChalkBox.java:262-300 | the state after processing equals the processing function: a class that is not a processor changes nothing; a dependency that does not load crashes before anything runs; otherwise the dependencies run in order up to a self-dependency or a crash, and then the stage |
| Orchestration.ChalkBox.SendOutput | src/main/java/chalkbox/api/ChalkBox.java:302-328 | the state and the deliveries to the output's methods equal those of the output function; the streams are unchanged |
| Orchestration.ChalkBox.Run | src/main/java/chalkbox/api/ChalkBox.java:128-140 | the final state and deliveries equal the run function: collection, processing and output, each only while no error is flagged |
| ProcessRunners.ChunkSize | src/main/java/chalkbox/api/ProcessRunner.java:43-44 | the chunk size is at least 1; it is the list length divided by the thread count (rounded down) when the list holds at least one item per thread, and 1 otherwise |
| ProcessRunners.SurvivorsAppend | src/main/java/chalkbox/api/ProcessRunner.java:28-37 | the results of two consecutive pieces are the concatenation of their results |
| ProcessRunners.SurvivorsLength | src/main/java/chalkbox/api/ProcessRunner.java:28-37 | the output is as long as the input minus the items whose invocation threw |
| ProcessRunners.SurvivorsTotal | src/main/java/chalkbox/api/ProcessRunner.java:28-37 | when no invocation throws, the output is the method applied to each item, in order |
| ProcessRunners.PartitionFlatten | src/main/java/chalkbox/api/ProcessRunner.java:45-47 | the chunks, concatenated, give back the input |
| ProcessRunners.PartitionCount | src/main/java/chalkbox/api/ProcessRunner.java:45-47 | chunk k exists exactly when k times the size is a position of the input |
| ProcessRunners.PartitionIndex | src/main/java/chalkbox/api/ProcessRunner.java:45-47 | chunk k holds exactly the items from index k·size up to (k+1)·size |
| ProcessRunners.PartitionSizes | src/main/java/chalkbox/api/ProcessRunner.java:45-47 | every chunk except the last has exactly `size` items, and the last has between 1 and `size` |
| ProcessRunners.ItemPlacement | src/main/java/chalkbox/api/ProcessRunner.java:45-47 | item i lands in chunk Quotient(i, size), at i minus that chunk's start |
| ProcessRunners.TenOverThree | src/main/java/chalkbox/api/ProcessRunner.java:43-47 | ten items over three threads run as chunks of 3, 3, 3 and 1 |
| ProcessRunners.ProcessRunner.constructor | src/main/java/chalkbox/api/ProcessRunner.java:18-22 | a runner holds its chunk and the method, with no results yet |
| ProcessRunners.ProcessRunner.Run | src/main/java/chalkbox/api/ProcessRunner.java:28-37 | the runner's results grow by the surviving results of its chunk, in order |
| ProcessRunners.ProcessRunner.GroupByIndex | src/main/java/chalkbox/api/ProcessRunner.java:45-47 | grouping by `counter++ / size` puts item i in group i / size, each group a contiguous slice |
| ProcessRunners.ProcessRunner.ExecuteProcess | src/main/java/chalkbox/api/ProcessRunner.java:39-67 | with a non-zero thread count, the segments are the partition by the chunk size, and the result is the surviving results of the whole list in input order |
| ProcessRunners.GroupedChunks | src/main/java/chalkbox/api/ProcessRunner.java:43-48 | once every item is placed, the groups are keyed 0 to the chunk count minus one and group k is chunk k of the partition |
| ProcessRunners.ProcessRunner.StartRunners | src/main/java/chalkbox/api/ProcessRunner.java:50-55 | one runner per group, in ascending group order, each holding the surviving results of its chunk |
| ProcessRunners.ProcessRunner.JoinRunners | src/main/java/chalkbox/api/ProcessRunner.java:57-64 | joining the runners in creation order concatenates their results into the survivors of each chunk, chunk after chunk |
| ProcessRunners.FlattenSurvivors | src/main/java/chalkbox/api/ProcessRunner.java:56-64 | joining the runners' results in chunk order equals mapping over the whole list |
| BoxConfig.Config.Value | src/main/java/chalkbox/api/config/BoxConfigParser.java:103-106 | a lookup returns the stored value of a key and nothing for an absent one |
| BoxConfig.Config.IsSet | src/main/java/chalkbox/api/config/BoxConfigParser.java:108-111 | a key is set exactly when `value(key)` is not null |
| BoxConfig.Config.ToMap | src/main/java/chalkbox/api/config/BoxConfigParser.java:113-116 | the map holds exactly the keys that are set, with their values |
| BoxConfig.Assignment | src/main/java/chalkbox/api/config/BoxConfigParser.java:60-72 | a line that is not a comment, not empty and holds `=` splits at its first `=` into key and value, neither trimmed |
| BoxConfig.Read | src/main/java/chalkbox/api/config/BoxConfigParser.java:34-76 | the result equals the parse function: the map of assignments, or the error for the first line without `=` |
| BoxConfig.ReadPath | src/main/java/chalkbox/api/config/BoxConfigParser.java:78-85 | a missing file fails with "Unable to find the config file"; otherwise the file is parsed as by `Read` |
| BoxConfig.ParseFromFails | src/main/java/chalkbox/api/config/BoxConfigParser.java:40-73 | parsing fails exactly when some line that is not a comment and not empty has no `=`, and the error names the first such line by number |
| BoxConfig.ParseFails | src/main/java/chalkbox/api/config/BoxConfigParser.java:56-66 | a parse fails exactly when some line is malformed, and the error names the first one |
| BoxConfig.ParseFromLastWins | src/main/java/chalkbox/api/config/BoxConfigParser.java:40-73 | a key is present exactly when some line assigns it, and its value is the one on the last such line |
| BoxConfig.LastAssignmentWins | src/main/java/chalkbox/api/config/BoxConfigParser.java:72 | a key is present exactly when some line assigns it, and its value is the one on the last such line |
| BoxConfig.RoundTrip | src/main/java/chalkbox/api/config/BoxConfigParser.java:34-76 | rendering a map with `=`-free, non-comment keys and single-line values as `key=value` lines and parsing them gives back the map |
| FieldAssigners.GetMethod | src/main/java/chalkbox/api/config/FieldAssigner.java:38-50 | finds an `assign` method whose first parameter accepts the field's type, or reports that none does |
| FieldAssigners.OverloadFor | src/main/java/chalkbox/api/config/FieldAssigner.java:52-59 | the overload for a field type accepts that type; only unsupported types have none |
| FieldAssigners.DispatchIsOrderFree | src/main/java/chalkbox/api/config/FieldAssigner.java:38-59 | over the assigner's methods, in any order, the method found is the one overload for the type |
| FieldAssigners.OnlyOverload | src/main/java/chalkbox/api/config/FieldAssigner.java:52-59 | only one of the assigner's overloads accepts a given type |
| FieldAssigners.ConstantIndex | src/main/java/chalkbox/api/config/FieldAssignerImpl.java:62-70 | an enum value is found exactly when some constant's name equals the text, and it is the first such constant |
| FieldAssigners.ParseBoolean | src/main/java/chalkbox/api/config/FieldAssignerImpl.java:93-99 | `true` and `false`, compared ignoring case, parse to their boolean; any other text is rejected |
| FieldAssigners.Converted | src/main/java/chalkbox/api/config/FieldAssignerImpl.java:43-127 | the converted value fits the field; strings, lists and arrays always convert; files need an existing path; enums need a constant's name; ints need `parseInt` to succeed; zips need an existing zip archive; other types have no conversion |
| FieldAssigners.NoCommaOneElement | src/main/java/chalkbox/api/config/FieldAssignerImpl.java:105-113 | a list or array value without a comma becomes a one-element list |
| FieldAssigners.ListSegmentsJoin | src/main/java/chalkbox/api/config/FieldAssignerImpl.java:107 | the comma-split elements joined with commas give the configured text less its trailing commas |
| FieldAssigners.FieldAssignerImpl.constructor | src/main/java/chalkbox/api/config/FieldAssignerImpl.java:23-25 | the assigner is bound to the given instance and has printed nothing |
| FieldAssigners.FieldAssignerImpl.SetField | src/main/java/chalkbox/api/config/FieldAssignerImpl.java:32-41 | a writable field gets the value; an unwritable one is left unchanged |
| FieldAssigners.FieldAssignerImpl.AssignString | src/main/java/chalkbox/api/config/FieldAssignerImpl.java:43-46 | the field holds the text itself, if it is writable |
| FieldAssigners.FieldAssignerImpl.AssignFile | src/main/java/chalkbox/api/config/FieldAssignerImpl.java:48-58 | the field holds the file when the path exists; otherwise "Unable to find file" is printed and the field is unchanged |
| FieldAssigners.FieldAssignerImpl.AssignEnum | src/main/java/chalkbox/api/config/FieldAssignerImpl.java:60-79 | the field holds the constant with that name; otherwise the three error lines are printed and the field is unchanged |
| FieldAssigners.FieldAssignerImpl.AssignInt | src/main/java/chalkbox/api/config/FieldAssignerImpl.java:81-89 | the field holds the parsed 32-bit integer; otherwise "Unable to cast" is printed and the field is unchanged |
| FieldAssigners.FieldAssignerImpl.AssignBoolean | src/main/java/chalkbox/api/config/FieldAssignerImpl.java:91-103 | the result reports whether the text is a boolean, and a writable field then holds it; otherwise "Unable to cast" is printed |
| FieldAssigners.FieldAssignerImpl.AssignList | src/main/java/chalkbox/api/config/FieldAssignerImpl.java:105-108 | the field holds the comma-split list, if it is writable |
| FieldAssigners.FieldAssignerImpl.AssignArray | src/main/java/chalkbox/api/config/FieldAssignerImpl.java:110-113 | the field holds the comma-split array, if it is writable |
| FieldAssigners.FieldAssignerImpl.AssignZip | src/main/java/chalkbox/api/config/FieldAssignerImpl.java:115-127 | the field holds the zip when the path is a zip archive; otherwise the matching error is printed and the field is unchanged |
| FieldAssigners.FieldAssignerImpl.Assign | src/main/java/chalkbox/api/config/FieldAssigner.java:38-59 | an unsupported type has no overload; for the other non-boolean types the result is true exactly when the value converts and the field is writable, a success stores the converted value, and a failure leaves the fields unchanged; for a boolean the result is true exactly when the text is `true` or `false` in any case, whether or not the write succeeds |
| JUnitPatterns.DotSplit | src/main/java/chalkbox/api/common/java/JUnitParser.java:28-29 | `(\d*).(\d*)`: the first group ends at a position with digits before it, a character other than a line terminator at it and digits after it, and the second group is the rest; there is no match when no position fits |
| JUnitPatterns.DotSplitDigits | src/main/java/chalkbox/api/common/java/JUnitParser.java:28-29 | `digits.digits` splits at the dot into its two digit runs |
| JUnitPatterns.MatchDotted | src/main/java/chalkbox/api/common/java/JUnitParser.java:28-29 | a match of the version or time pattern is its prefix (`JUnit version ` or `Time: `), a digit run, any non-line-terminator character and a digit run, and the groups are the two runs |
| JUnitPatterns.DottedMatches | src/main/java/chalkbox/api/common/java/JUnitParser.java:28-29 | the prefix followed by `a.b`, with digit runs a and b, matches with groups a and b |
| JUnitPatterns.VersionMatches | src/main/java/chalkbox/api/common/java/JUnitParser.java:28 | `JUnit version a.b` with digit runs a and b matches, with groups a and b |
| JUnitPatterns.TimeMatches | src/main/java/chalkbox/api/common/java/JUnitParser.java:29 | `Time: s.ms` with digit runs matches, with groups s and ms |
| JUnitPatterns.MatchSuccess | src/main/java/chalkbox/api/common/java/JUnitParser.java:30 | a match has the shape `OK (n test` followed by any number of `s` and `)`, with n a digit run |
| JUnitPatterns.SuccessMatches | src/main/java/chalkbox/api/common/java/JUnitParser.java:30 | every line of the success shape matches, with its digit group |
| JUnitPatterns.SuccessLineMatches | src/main/java/chalkbox/api/common/java/JUnitParser.java:30 | `OK (n test)` and `OK (n tests)` match with group n |
| JUnitPatterns.MatchFail | src/main/java/chalkbox/api/common/java/JUnitParser.java:31 | a match is exactly `Tests run: r,  Failures: f` (two spaces) with digit runs r and f |
| JUnitPatterns.FailMatches | src/main/java/chalkbox/api/common/java/JUnitParser.java:31 | the failure summary line for any two digit runs matches with those groups |
| JUnitPatterns.SplitCall | src/main/java/chalkbox/api/common/java/JUnitParser.java:32 | `name(class)` splits at a `(` after which the class holds no `(` |
| JUnitPatterns.CallMatches | src/main/java/chalkbox/api/common/java/JUnitParser.java:32 | `name(class)` with a class holding no `(` splits back into that name and class |
| JUnitPatterns.MatchHeader | src/main/java/chalkbox/api/common/java/JUnitParser.java:32 | a match is `n) name(class)` with a digit run n, and the class holds no `(` |
| JUnitPatterns.HeaderMatches | src/main/java/chalkbox/api/common/java/JUnitParser.java:32 | `n) name(class)` with a digit run n and a class without parentheses matches, with those groups |
| JUnitParsing.Summary | src/main/java/chalkbox/api/common/java/JUnitParser.java:208-212 | one entry per summary character, true exactly for `.` |
| JUnitParsing.ParsePair | src/main/java/chalkbox/api/common/java/JUnitParser.java:203-205 | both groups are parsed with `parseInt`; the pair fails exactly when either does, the first group's failure taking precedence |
| JUnitParsing.JUnitParser.constructor | src/main/java/chalkbox/api/common/java/JUnitParser.java:16-26 | a new parser has null arrays, zero counts, empty maps and no cached output |
| JUnitParsing.JUnitParser.GetVersion | src/main/java/chalkbox/api/common/java/JUnitParser.java:66-68 | the version rendered as `major.minor`, or null (NullPointerException) before a version is read |
| JUnitParsing.JUnitParser.GetTime | src/main/java/chalkbox/api/common/java/JUnitParser.java:73-75 | the time rendered as `s.ms`, or null (NullPointerException) before a time is read |
| JUnitParsing.JUnitParser.ParseHeader | src/main/java/chalkbox/api/common/java/JUnitParser.java:200-221 | the fields become those of the header function: version, summary and, when the time line matches, the time; or its NumberFormatException |
| JUnitParsing.JUnitParser.SummaryOf | src/main/java/chalkbox/api/common/java/JUnitParser.java:208-212 | the array built character by character equals the summary |
| JUnitParsing.JUnitParser.Counts | src/main/java/chalkbox/api/common/java/JUnitParser.java:149-160 | the success and failure branches of one line update the counts as the line functions say |
| JUnitParsing.JUnitParser.Messages | src/main/java/chalkbox/api/common/java/JUnitParser.java:162-180 | a header starts a failure record, a blank line ends it, and other lines extend it, as the line function says |
| JUnitParsing.JUnitParser.StepLine | src/main/java/chalkbox/api/common/java/JUnitParser.java:149-180 | one non-version line updates the fields and scan state as the line function says |
| JUnitParsing.JUnitParser.Parse | src/main/java/chalkbox/api/common/java/JUnitParser.java:107-184 | the parser's fields after reading all lines are those of the parse function, or its exception |
| JUnitParsing.JUnitParser.FormatOutput | src/main/java/chalkbox/api/common/java/JUnitParser.java:39-61 | given the failure map's iteration order (each key once), the output is built once and holds the name-and-message block of every failing test; later calls return the cached text |
| JUnitParsing.OutputHasBlock | src/main/java/chalkbox/api/common/java/JUnitParser.java:39-61 | the built output contains the block of every failure in the iteration order |
| JUnitParsing.BlankLineEndsMessage | src/main/java/chalkbox/api/common/java/JUnitParser.java:172-174 | a blank line ends the failure message being read |
| JUnitParsing.SuccessLineCounts | src/main/java/chalkbox/api/common/java/JUnitParser.java:150-153 | `OK (n tests)` sets passes to n and fails to 0, leaving the failures as they were |
| JUnitParsing.FailLineCounts | src/main/java/chalkbox/api/common/java/JUnitParser.java:156-160 | `Tests run: r,  Failures: f` sets fails to f and passes to r minus f |
| JUnitParsing.HeaderLineRecords | src/main/java/chalkbox/api/common/java/JUnitParser.java:163-169 | a failure header `k) name(class)` records the method name under k, starts an empty message and begins reading it |
| JUnitParsing.ContinuationAppends | src/main/java/chalkbox/api/common/java/JUnitParser.java:176-180 | while a message is being read, any other non-empty line is appended after a line separator |
| JUnitParsing.StepConsistent | src/main/java/chalkbox/api/common/java/JUnitParser.java:149-180 | each line keeps the failure names and messages keyed alike, with the message being read present |
| JUnitParsing.ParseConsistent | src/main/java/chalkbox/api/common/java/JUnitParser.java:122-184 | after a successful parse, the failure names and messages have the same keys |
| JUnitParsing.BuildOutput | src/main/java/chalkbox/api/common/java/JUnitParser.java:51-61 | the output is empty exactly when there are no failures, and otherwise ends with a line separator |
| JUnitParsing.JUnitParser.GetTotal | src/main/java/chalkbox/api/common/java/JUnitParser.java:94-96 | the total is the passes plus the failures |
| JUnitParsing.OutputWithoutNull | src/main/java/chalkbox/api/common/java/JUnitParser.java:51-61 | when names and messages share keys, each failure renders as its name followed by its message |
| JUnitParsing.HeaderRecorded | src/main/java/chalkbox/api/common/java/JUnitParser.java:136-147 | a version line followed by a summary and a time line records all three |
| JUnitParsing.PassingTail | src/main/java/chalkbox/api/common/java/JUnitParser.java:149-174 | after the header, a blank line and `OK (n tests)` give n passes and no failures |
| JUnitParsing.AllPassing | src/main/java/chalkbox/api/common/java/JUnitParser.java:107-184 | the full output of an all-passing run parses to its version, summary, time and pass count, with no failures |
| JUnitParsing.VersionNeedsResults | src/main/java/chalkbox/api/common/java/JUnitParser.java:137-140 | a version line as the last line raises "Unable to read results line" |
| JUnitParsing.VersionNeedsTime | src/main/java/chalkbox/api/common/java/JUnitParser.java:141-145 | a version line followed only by a summary line raises "JUnit died" |
| Flags.Flag.IsSet | src/main/java/chalkbox/java/conformance/comparator/flags/Flag.java:20-22 | a plain or singular flag reports its stored state; a list flag is set exactly when some item is in one of its lists but not the other (ListFlag.java:22-36) |
| Flags.Flag.SetFlag | src/main/java/chalkbox/java/conformance/comparator/flags/Flag.java:16-18 | a plain or singular flag becomes set exactly when the argument is true; a list flag's state does not change |
| Flags.Flag.ToString | src/main/java/chalkbox/java/conformance/comparator/flags/Flag.java:28-30 | the rendering starts with the indentation and the description |
| Flags.NewFlag | src/main/java/chalkbox/java/conformance/comparator/flags/Flag.java:7-9 | a new flag has its description and is not set |
| Flags.NewFlagWith | src/main/java/chalkbox/java/conformance/comparator/flags/Flag.java:11-14 | a new flag has its description and the given value |
| Flags.NewSingular | src/main/java/chalkbox/java/conformance/comparator/flags/SingularFlag.java:7-12 | a singular flag is set exactly when its expected and actual values differ |
| Flags.NewListFlag | src/main/java/chalkbox/java/conformance/comparator/flags/ListFlag.java:10-12 | a list flag starts with empty expected and actual lists |
| Flags.Flag.AddExpected | src/main/java/chalkbox/java/conformance/comparator/flags/ListFlag.java:14-16 | the expected list gains the item at its end |
| Flags.Flag.AddActual | src/main/java/chalkbox/java/conformance/comparator/flags/ListFlag.java:18-20 | the actual list gains the item at its end |
| Flags.Flag.Missing | src/main/java/chalkbox/java/conformance/comparator/flags/ListFlag.java:41-48 | exactly the expected items absent from the actual list |
| Flags.Flag.Extra | src/main/java/chalkbox/java/conformance/comparator/flags/ListFlag.java:50-54 | exactly the actual items absent from the expected list |
| Flags.ListFlagIsSetIff | src/main/java/chalkbox/java/conformance/comparator/flags/ListFlag.java:22-36 | a list flag is set exactly when the expected and actual lists differ as sets |
| Flags.ListFlagIsSetMissingExtra | src/main/java/chalkbox/java/conformance/comparator/flags/ListFlag.java:22-54 | a list flag is set exactly when something is missing or extra |
| Flags.ListFlagOrderFree | src/main/java/chalkbox/java/conformance/comparator/flags/ListFlag.java:22-36 | a list flag whose actual list has the same items as the expected one, in any order, is not set |
| Flags.SingularLines | src/main/java/chalkbox/java/conformance/comparator/flags/SingularFlag.java:14-25 | a singular flag renders as its description, an `Expected:` line and an `Actual:` line |
| Flags.ListLines | src/main/java/chalkbox/java/conformance/comparator/flags/ListFlag.java:38-64 | a list flag renders as its description, a `Missing:` line and an `Extra:` line |
| Comparators.Comparator.HasDifference | src/main/java/chalkbox/java/conformance/comparator/CodeComparator.java:24-36 | a comparator differs exactly when some flag anywhere in its tree (its own or any sub-comparator's, at any depth) is set |
| Comparators.Comparator.FlagsText | src/main/java/chalkbox/java/conformance/comparator/CodeComparator.java:55-60 | empty exactly when none of the remaining flags is set |
| Comparators.Comparator.SubsText | src/main/java/chalkbox/java/conformance/comparator/CodeComparator.java:62-66 | empty exactly when none of the remaining sub-comparators has a difference |
| Comparators.Comparator.ToString | src/main/java/chalkbox/java/conformance/comparator/CodeComparator.java:51-69 | the rendering starts with the name line and is longer than it exactly when the comparator has a difference |
| Comparators.ModifierString | src/main/java/chalkbox/java/conformance/comparator/CodeComparator.java:39-40 | empty exactly when no known modifier bit is set |
| Comparators.ModifierWordsEmpty | src/main/java/chalkbox/java/conformance/comparator/CodeComparator.java:38-43 | no modifier words exactly when no known bit is set, and their join is empty exactly then |
| Comparators.ModifierFlag | src/main/java/chalkbox/java/conformance/comparator/CodeComparator.java:38-43 | the modifier flag is set exactly when the two modifier sets differ, and it shows both renderings |
| Comparators.NamesFlag | src/main/java/chalkbox/java/conformance/comparator/MethodComparator.java:24-31 | a list flag of expected against actual names, set exactly when the name sets differ |
| Comparators.FillNamesFlag | src/main/java/chalkbox/java/conformance/comparator/MethodComparator.java:33-40 | adding the names one at a time gives the names flag |
| Comparators.FieldComparison | src/main/java/chalkbox/java/conformance/comparator/FieldComparator.java:9-22 | a field comparison has two flags: modifiers and type |
| Comparators.MethodComparison | src/main/java/chalkbox/java/conformance/comparator/MethodComparator.java:10-41 | a method comparison is unindented, has no sub-comparisons and has four flags |
| Comparators.MethodFlags | src/main/java/chalkbox/java/conformance/comparator/MethodComparator.java:17-41 | the four method flags are set exactly when the modifiers, the return types, the exception sets or the parameter-type sets differ |
| Comparators.ConstructorComparison | src/main/java/chalkbox/java/conformance/comparator/ConstructorComparator.java:8-35 | a constructor comparison has three flags: modifiers, exceptions and parameter types, the last two compared as sets |
| Comparators.FieldDifference | src/main/java/chalkbox/java/conformance/comparator/FieldComparator.java:16-22 | two fields differ exactly when their modifiers or their types differ |
| Comparators.MethodDifference | src/main/java/chalkbox/java/conformance/comparator/MethodComparator.java:17-41 | two methods differ exactly when the modifiers, the return type, the exception set or the parameter type set differ |
| Comparators.ConstructorDifference | src/main/java/chalkbox/java/conformance/comparator/ConstructorComparator.java:15-35 | two constructors differ exactly when the modifiers, the exception set or the parameter type set differ |
| Comparators.VisibleOf | src/main/java/chalkbox/java/conformance/comparator/ClassComparator.java:57-60 | exactly the members not declared in a `java.` package are compared, in order |
| Comparators.LastByName | src/main/java/chalkbox/java/conformance/comparator/ClassComparator.java:55-63 | the name-keyed map has exactly the members' names, each mapping to a member with that name |
| Comparators.LastByNameIsLast | src/main/java/chalkbox/java/conformance/comparator/ClassComparator.java:62 | the member stored under a name is the last visible member with that name |
| Comparators.Matched | src/main/java/chalkbox/java/conformance/comparator/ClassComparator.java:64-75 | at most one sub-comparator per actual member, each indented by four |
| Comparators.ClassComparison | src/main/java/chalkbox/java/conformance/comparator/ClassComparator.java:15-41 | a class comparison is named after the expected class, unindented, and starts with the modifier flag |
| Comparators.ClassInterfaceFlags | src/main/java/chalkbox/java/conformance/comparator/ClassComparator.java:43-50 | the last two flags are set exactly when an interface was expected and a class found, and exactly when a class was expected and an interface found |
| Comparators.CompareMethod | src/main/java/chalkbox/java/conformance/comparator/MethodComparator.java:10-41 | builds the method comparison |
| Comparators.CompareConstructor | src/main/java/chalkbox/java/conformance/comparator/ConstructorComparator.java:8-35 | builds the constructor comparison |
| Comparators.BuildComparator | src/main/java/chalkbox/java/conformance/comparator/ClassComparator.java:78-88 | the comparison for one matched pair of members, indented by four |
| Comparators.CompareMembers | src/main/java/chalkbox/java/conformance/comparator/ClassComparator.java:53-76 | the names flag and the sub-comparators equal those of the group functions |
| Comparators.RecordExpected | src/main/java/chalkbox/java/conformance/comparator/ClassComparator.java:57-63 | the visible expected names are added to the flag in order, and the name-keyed map keeps the last visible member per name |
| Comparators.RecordActual | src/main/java/chalkbox/java/conformance/comparator/ClassComparator.java:64-75 | the visible actual names are added to the flag in order, with one sub-comparator, indented by four, per visible actual member that has an expected namesake |
| Comparators.MatchedHead | src/main/java/chalkbox/java/conformance/comparator/ClassComparator.java:69-73 | when the first actual member has an expected namesake, the first sub-comparator compares the two |
| Comparators.MatchedSelf | src/main/java/chalkbox/java/conformance/comparator/ClassComparator.java:53-76 | members with distinct names matched against themselves give sub-comparators none of which differs |
| Comparators.CompareGroups | src/main/java/chalkbox/java/conformance/comparator/ClassComparator.java:27-41 | the flags and sub-comparators equal those of fields, constructors and methods, compared group by group |
| Comparators.CompareClass | src/main/java/chalkbox/java/conformance/comparator/ClassComparator.java:15-51 | the comparator built equals the class comparison |
| Comparators.SelfComparisonClean | src/main/java/chalkbox/java/conformance/comparator/CodeComparator.java:24-36 | a field, method or constructor compared with itself shows no difference |
| Comparators.GroupSelfClean | src/main/java/chalkbox/java/conformance/comparator/ClassComparator.java:53-76 | a group whose visible members have distinct names, compared with itself, sets no flag and no sub-comparator differs |
| Comparators.ClassSelfComparisonClean | src/main/java/chalkbox/java/conformance/comparator/ClassComparator.java:22-51 | a class whose members have distinct names shows no difference when compared with itself |
| Comparators.OverloadFirstSub | src/main/java/chalkbox/java/conformance/comparator/ClassComparator.java:55-75 | with two overloads of one name, the first actual overload is compared with the last expected one |
| Comparators.ClassFirstSub | src/main/java/chalkbox/java/conformance/comparator/ClassComparator.java:55-75 | in a class whose members are two visible overloads of one name, the first sub-comparator compares the second overload, as expected, with the first, as actual, indented by 4 |
| Comparators.OverloadsDifferFromThemselves | src/main/java/chalkbox/java/conformance/comparator/ClassComparator.java:55-75 | a class with two overloads of one name whose parameter types differ shows a difference when compared with itself |
| Results.Data.Set | src/main/java/chalkbox/api/collections/Data.java:39-41 | only the given key changes, and it holds the value |
| Results.Data.Get | src/main/java/chalkbox/api/collections/Data.java:29-31 | the stored value of a key, null for an absent one |
| Results.Data.Is | src/main/java/chalkbox/java/conformance/Conformance.java:99 | a key is true exactly when it holds the boolean true; an absent key or any other value is false |
| Conformance.Absent | src/main/java/chalkbox/java/conformance/Conformance.java:77-87 | the items of one list absent from the other, in order (`removeAll`) |
| Conformance.Files | src/main/java/chalkbox/java/conformance/Conformance.java:72-93 | `structure.missing` and `structure.extra` are written as the structure function says |
| Conformance.StructureMatches | src/main/java/chalkbox/java/conformance/Conformance.java:72-93 | both lists are empty exactly when the submitted and expected files are the same set |
| Conformance.Outcome | src/main/java/chalkbox/java/conformance/Conformance.java:124-133 | a class absent on either side differs with "Unable to load class"; otherwise it differs exactly when the class comparison has a difference |
| Conformance.RecordClasses | src/main/java/chalkbox/java/conformance/Conformance.java:114-134 | the results become the recorded function: each class's `differs` and `output` written in turn |
| Conformance.Compare | src/main/java/chalkbox/java/conformance/Conformance.java:96-137 | given the expected classes in iteration order, nothing is written when the submission did not compile; a class-loading failure writes `conformance.error`; otherwise every class is recorded |
| Conformance.KeysDistinct | src/main/java/chalkbox/java/conformance/Conformance.java:120 | two result keys coincide only for the same class and the same suffix |
| Conformance.RecordedUntouched | src/main/java/chalkbox/java/conformance/Conformance.java:114-134 | keys outside the conformance entries are unchanged |
| Conformance.RecordedLast | src/main/java/chalkbox/java/conformance/Conformance.java:130-133 | the class recorded last has its outcome stored under its `differs` and `output` keys |
| Conformance.RecordedOutcome | src/main/java/chalkbox/java/conformance/Conformance.java:114-134 | for distinct names, every class has its own outcome stored under its `differs` and `output` keys |
| Conformance.RecordedOrderFree | src/main/java/chalkbox/java/conformance/Conformance.java:114 | for distinct class names, the recorded results do not depend on their order |
| Conformance.Load | src/main/java/chalkbox2/components/java/ConformanceComponent.java:101-117 | compiler output means failure, with that output as the exception text; otherwise the loaded classes |
| Conformance.ConformanceComponent.constructor | src/main/java/chalkbox2/components/java/ConformanceComponent.java:29-30 | a new component is interactive, has no folders, and expects no classes and no files |
| Conformance.ConformanceComponent.SetNoInteraction | src/main/java/chalkbox2/components/java/ConformanceComponent.java:32-35 | sets the interaction switch and nothing else |
| Conformance.ConformanceComponent.SetSubmissionFolder | src/main/java/chalkbox2/components/java/ConformanceComponent.java:37-40 | sets the submission folder and nothing else |
| Conformance.ConformanceComponent.SetTemplateFolder | src/main/java/chalkbox2/components/java/ConformanceComponent.java:42-45 | sets the template folder and nothing else |
| Conformance.ConformanceComponent.Init | src/main/java/chalkbox2/components/java/ConformanceComponent.java:47-50 | the template's classes and files are added, or the template's load failure is returned and nothing changes |
| Conformance.ConformanceComponent.Run | src/main/java/chalkbox2/components/java/ConformanceComponent.java:52-99 | a submission that fails to compile is marked failed and gets `structure.error`; otherwise the structure diff and then each class's outcome are recorded |
| Allocation.ParseLine | src/main/java/chalkbox/csse2002/Allocate.java:46-47 | a line splits into at least two comma-separated fields exactly when it parses, giving the first two fields trimmed; otherwise ArrayIndexOutOfBoundsException |
| Allocation.Marker | src/main/java/chalkbox/csse2002/Allocate.java:54 | the allocated tutor, or "nobody" for an unallocated student |
| Allocation.Allocated | src/main/java/chalkbox/csse2002/Allocate.java:52-57 | the results succeed exactly when `sid` is present, and then only `marker` is written, with the student's tutor or "nobody" |
| Allocation.Allocate.constructor | src/main/java/chalkbox/csse2002/Allocate.java:31 | allocations start empty |
| Allocation.Allocate.LoadAllocations | src/main/java/chalkbox/csse2002/Allocate.java:36-49 | a missing file leaves the map as it is; otherwise the map becomes the one the lines give, or the error of the first bad line |
| Allocation.Allocate.AllocateMarker | src/main/java/chalkbox/csse2002/Allocate.java:51-57 | the results become those `Allocated` gives; on failure they are unchanged |
| Allocation.AllocationOf | src/main/java/chalkbox/csse2002/Allocate.java:45-48 | after loading, a student is allocated exactly when some line names them, and then to the tutor on the last such line |
| Allocation.MarkerAfterLoading | src/main/java/chalkbox/csse2002/Allocate.java:45-54 | a student's marker is the tutor on their last line, or "nobody" |
| Allocation.LineWithoutComma | src/main/java/chalkbox/csse2002/Allocate.java:46-47 | a line without a comma fails |
| Allocation.ParseTwoFields | src/main/java/chalkbox/csse2002/Allocate.java:46-47 | `sid,tutor` parses to the trimmed sid and tutor |
| Integrity.TrimAll | src/main/java/chalkbox/csse2002/IntegrityRemoval.java:36-38 | every line trimmed, in file order |
| Integrity.Flagged | src/main/java/chalkbox/csse2002/IntegrityRemoval.java:46 | a non-String `sid` fails the cast; the submission is flagged exactly when its `sid` is a String in the list |
| Integrity.IntegrityRemoval.constructor | src/main/java/chalkbox/csse2002/IntegrityRemoval.java:29-30 | no error and no students |
| Integrity.IntegrityRemoval.LoadList | src/main/java/chalkbox/csse2002/IntegrityRemoval.java:32-42 | the trimmed lines are appended to the list, or an unreadable file sets the error flag |
| Integrity.IntegrityRemoval.SetFlag | src/main/java/chalkbox/csse2002/IntegrityRemoval.java:44-51 | a bad `sid` is reported; `integrity` becomes true exactly for a listed sid, and nothing else changes |
| Integrity.FlaggedIffListed | src/main/java/chalkbox/csse2002/IntegrityRemoval.java:32-48 | a sid is flagged exactly when some line of the list trims to it |
| Integrity.UnreadableFlagsNobody | src/main/java/chalkbox/csse2002/IntegrityRemoval.java:39-41 | with an unreadable list, nobody is flagged |
| Integrity.PaddedLineListed | src/main/java/chalkbox/csse2002/IntegrityRemoval.java:37 | a line with blanks around a sid still flags that sid |
| JUnitHacks.PassesOf | src/main/java/chalkbox/java/junit/JUnitHack.java:28-32 | an absent count reads as none; a present count is a 32-bit integer, or the read fails |
| JUnitHacks.ComputeBaseline | src/main/java/chalkbox/java/junit/JUnitHack.java:23-34 | the baseline equals the baseline function over the sample's classes |
| JUnitHacks.FlagSolution | src/main/java/chalkbox/java/junit/JUnitHack.java:43-58 | the results become those of the class-flagging function, or its parse failure |
| JUnitHacks.HackResults | src/main/java/chalkbox/java/junit/JUnitHack.java:20-62 | the results become those `Hack` gives, or its parse failure |
| JUnitHacks.BaselineAt | src/main/java/chalkbox/java/junit/JUnitHack.java:25-34 | a class is in the baseline exactly when the sample has a count for it, and then maps to that count |
| JUnitHacks.FlagClassesOther | src/main/java/chalkbox/java/junit/JUnitHack.java:43-58 | flagging writes only the `correct` keys of the classes listed |
| JUnitHacks.FlagClassesOutcome | src/main/java/chalkbox/java/junit/JUnitHack.java:43-58 | each class named once gets `correct`, which is true exactly when its count is known, it has a baseline, and it passes fewer tests than the baseline |
| JUnitHacks.SampleSkipped | src/main/java/chalkbox/java/junit/JUnitHack.java:37-40 | the sample solution is never flagged, wherever it appears in the listing |
| JUnitHacks.StoredCount | src/main/java/chalkbox/java/junit/JUnitHack.java:32 | a stored 32-bit count is read back as itself |
| Blackboard.ReadLine | src/main/java/chalkbox/collectors/BlackboardCollector.java:89-116 | a line fails exactly when it is a `key:` line with nothing before the `:` split, or a continuation line with no pending key; a line that is neither a continuation nor a record leaves the text fields unchanged |
| Blackboard.SidOf | src/main/java/chalkbox/collectors/BlackboardCollector.java:122-126 | the group of the `\((.*)\)` match `find()` reports: it starts at the leftmost `(` that has a match and runs greedily to the last `)` before a line break; none exactly when there is no match |
| Blackboard.FirstGroupUnique | src/main/java/chalkbox/collectors/BlackboardCollector.java:122-126 | at most one match is leftmost and longest, so the sid is determined |
| Blackboard.SidOfGreedy | src/main/java/chalkbox/collectors/BlackboardCollector.java:122-126 | `A (x) B (y)` yields `x) B (y`: the group runs from the first `(` to the last `)` |
| Blackboard.Finish | src/main/java/chalkbox/collectors/BlackboardCollector.java:119-126 | a file without `Name` fails (null dereference); otherwise `files` replaces any text field of that name, other fields are kept, and `sid` is set from the name when it holds one |
| Blackboard.ReadSubmissionFile | src/main/java/chalkbox/collectors/BlackboardCollector.java:81-129 | the loop over the lines equals the read function, including its failures |
| Blackboard.Collected | src/main/java/chalkbox/collectors/BlackboardCollector.java:37-49 | an entry that is not a four-part `.txt` name contributes nothing; a collected entry has `root` set to `.` |
| Blackboard.Collect | src/main/java/chalkbox/collectors/BlackboardCollector.java:31-68 | the collections equal those of the collection function, one per sid |
| Blackboard.EmptyLinesIgnored | src/main/java/chalkbox/collectors/BlackboardCollector.java:89-92 | reading a file is reading its non-empty lines |
| Blackboard.RecordSplits | src/main/java/chalkbox/collectors/BlackboardCollector.java:95-96 | a `key: value` line splits at its key when the key holds no `: ` |
| Blackboard.RepeatedKeyIgnored | src/main/java/chalkbox/collectors/BlackboardCollector.java:101-104 | a record for a key already present changes nothing |
| Blackboard.NewKeyRecorded | src/main/java/chalkbox/collectors/BlackboardCollector.java:101-104 | a record for a new key stores its value |
| Blackboard.FirstOccurrenceWins | src/main/java/chalkbox/collectors/BlackboardCollector.java:95-104 | a file of records keeps each key's first value, and earlier fields stay |
| Blackboard.OriginalFilenameLine | src/main/java/chalkbox/collectors/BlackboardCollector.java:97-98 | `Original filename` makes the escaped name current |
| Blackboard.FilenameLine | src/main/java/chalkbox/collectors/BlackboardCollector.java:99-100 | `Filename` records the path under the current file |
| Blackboard.FileRecorded | src/main/java/chalkbox/collectors/BlackboardCollector.java:97-100 | the two file lines record the path under the escaped original name |
| Blackboard.KeyLineSetsPending | src/main/java/chalkbox/collectors/BlackboardCollector.java:107-108 | a `key:` line makes the text before its first `:` the pending key |
| Blackboard.ValueLineAppends | src/main/java/chalkbox/collectors/BlackboardCollector.java:110-116 | a line without `:` is appended to the pending key's value, or starts it; other fields are unchanged |
| Blackboard.ValueLineWithoutKey | src/main/java/chalkbox/collectors/BlackboardCollector.java:110-116 | a continuation line before any key fails on the null key |
| Blackboard.SidOfName | src/main/java/chalkbox/collectors/BlackboardCollector.java:122-126 | a name `prefix(sid)suffix`, with no `(` before and no `)` after, yields sid |
| Blackboard.NoParenNoSid | src/main/java/chalkbox/collectors/BlackboardCollector.java:122-126 | a name without `(` yields no sid |
| Blackboard.FourPartsAccepted | src/main/java/chalkbox/collectors/BlackboardCollector.java:37-40 | a four-part `.txt` name is read |
| Blackboard.ThreePartsSkipped | src/main/java/chalkbox/collectors/BlackboardCollector.java:37-40 | a three-part `.txt` name is skipped |
| Blackboard.SharedCollection | src/main/java/chalkbox/collectors/BlackboardCollector.java:51-52 | each sid is collected once, from its first entry, and an existing collection is kept |
| SleepingCoders.Wrap | src/test/resources/csse1001/assignment/a2_support.py:71-91 | Python's `%` by a positive n: the result lies in [0, n) (its congruence is `WrapShift`'s and `WrapAdd`'s) |
| SleepingCoders.WrapAdd | src/test/resources/csse1001/assignment/a2_support.py:71-91 | wrapping is compatible with addition |
| SleepingCoders.TurnManager.constructor | src/test/resources/csse1001/assignment/a2_support.py:52-63 | the turn order starts at the first player, moving forward |
| SleepingCoders.TurnManager.Current | src/test/resources/csse1001/assignment/a2_support.py:65-69 | the player at the current location; without players, IndexError |
| SleepingCoders.TurnManager.Peak | src/test/resources/csse1001/assignment/a2_support.py:77-91 | the player count places from the current one in the direction of play, wrapping round the table; without players, ZeroDivisionError |
| SleepingCoders.PeakBackwards | src/test/resources/csse1001/assignment/a2_support.py:77-91 | a negative count looks backwards: `peak(-1)` is the player before the current one in the direction of play |
| SleepingCoders.TurnManager.Reverse | src/test/resources/csse1001/assignment/a2_support.py:93-97 | toggles the direction and nothing else |
| SleepingCoders.TurnManager.Skip | src/test/resources/csse1001/assignment/a2_support.py:99-106 | the location moves count + 1 places in the current direction (modulo the player count), and the new current player is returned; without players, ZeroDivisionError |
| SleepingCoders.TurnManager.Next | src/test/resources/csse1001/assignment/a2_support.py:71-75 | the location moves one place in the current direction and the new current player is returned |
| SleepingCoders.PeakZero | src/test/resources/csse1001/assignment/a2_support.py:77-91 | peeking zero places ahead gives the current player |
| SleepingCoders.FullRound | src/test/resources/csse1001/assignment/a2_support.py:77-91 | peeking a full round ahead gives the current player |
| SleepingCoders.SkipReverseSkip | src/test/resources/csse1001/assignment/a2_support.py:93-106 | moving count places and then count places in the reverse direction returns to the start |
| SleepingCoders.GetAt | src/test/resources/csse1001/assignment/a2_support.py:144-150 | Python indexing succeeds exactly when the slot is in range, with negative slots counting from the end |
| SleepingCoders.SetAt | src/test/resources/csse1001/assignment/a2_support.py:152-159 | Python item assignment succeeds on the same slots, and keeps the length |
| SleepingCoders.SetThenGet | src/test/resources/csse1001/assignment/a2_support.py:144-159 | a slot reads back what was written to it, and other slots are unchanged |
| SleepingCoders.LastSlotAlias | src/test/resources/csse1001/assignment/a2_support.py:144-159 | slots -1 and n-1 are the same slot |
| SleepingCoders.LastWinner | src/test/resources/csse1001/assignment/a2_support.py:207-219 | the last player, in order, who has won |
| SleepingCoders.CodersGame.constructor | src/test/resources/csse1001/assignment/a2_support.py:113-135 | the game starts with no winner, no action, and the turns at the first player |
| SleepingCoders.CodersGame.GetSleepingCoder | src/test/resources/csse1001/assignment/a2_support.py:144-150 | the coder in the slot, with Python's index rule; out of range is IndexError |
| SleepingCoders.CodersGame.SetSleepingCoder | src/test/resources/csse1001/assignment/a2_support.py:152-159 | only that slot changes; an out-of-range slot changes nothing |
| SleepingCoders.CodersGame.CurrentPlayer | src/test/resources/csse1001/assignment/a2_support.py:189-193 | the turn manager's current player, the one at its location; an IndexError without players |
| SleepingCoders.CodersGame.NextPlayer | src/test/resources/csse1001/assignment/a2_support.py:180-187 | the location moves one place in the direction of play (modulo the player count) and the new current player, the one `peak(1)` showed, is returned; without players the location moves and ZeroDivisionError is raised |
| SleepingCoders.CodersGame.Skip | src/test/resources/csse1001/assignment/a2_support.py:195-197 | the location moves one place in the direction of play (`skip()` with count 0) and the current player becomes the one `peak(1)` showed; without players the location moves and the ZeroDivisionError propagates |
| SleepingCoders.SkipThenNext | src/test/resources/csse1001/assignment/a2_support.py:99-106 | one place on twice is two places on, modulo the player count |
| SleepingCoders.CodersGame.SkipThenNextPlayer | src/test/resources/csse1001/assignment/a2_support.py:180-197 | `skip()` then `next_player()` on a game moves the turn two places on, so the player `peak(1)` showed is passed over and the one `peak(2)` showed plays; without players, ZeroDivisionError |
| SleepingCoders.CodersGame.Reverse | src/test/resources/csse1001/assignment/a2_support.py:199-201 | the direction of play reverses, and the location stays |
| SleepingCoders.CodersGame.SetAction | src/test/resources/csse1001/assignment/a2_support.py:237-250 | a later `get_action` returns the action |
| SleepingCoders.CodersGame.IsOver | src/test/resources/csse1001/assignment/a2_support.py:207-219 | over when the pile is empty; otherwise over exactly when it already was or some player has won, with the last winner recorded |
| SleepingCoders.Row | src/test/resources/csse1001/assignment/a2_support.py:259-289 | one card per value of a structure entry, of that entry's class; range cards carry their value |
| SleepingCoders.BuildDeck | src/test/resources/csse1001/assignment/a2_support.py:259-289 | the deck equals the structure's rows, in order |
| SleepingCoders.DeckLength | src/test/resources/csse1001/assignment/a2_support.py:259-289 | the deck has one card per value |
| SleepingCoders.DeckCard | src/test/resources/csse1001/assignment/a2_support.py:259-289 | the card for the j-th value of entry i sits at the total of the earlier entries plus j |
| JavaText.SplitFirst | src/main/java/chalkbox/api/ChalkBox.java:172 | `split(sep, 2)`: no split exactly when sep does not occur; otherwise the text before the first occurrence and everything after it |
| JavaText.PiecesJoin | src/main/java/chalkbox/api/config/FieldAssignerImpl.java:107 | the segments between occurrences of the separator, joined back with it, give the input |
| JavaText.Trim | src/main/java/chalkbox/csse2002/Allocate.java:47 | `trim` removes only characters at or below U+0020 from either end, and leaves none there |
| JavaText.SplitJoin | src/main/java/chalkbox/csse2002/Allocate.java:46 | `split` undoes a join of separator-free segments whose last one is non-empty |
| JavaText.ReadJoinedLines | src/main/java/chalkbox/api/common/java/JUnitParser.java:134 | `readLine` over newline-terminated lines yields exactly those lines |
| JavaText.ParseInt | src/main/java/chalkbox/java/junit/JUnitHack.java:32 | `parseInt` succeeds exactly on an optional sign followed by at least one digit whose value fits in 32 bits, and returns that value |
| JavaText.ParseSignedDigits | src/main/java/chalkbox/java/junit/JUnitHack.java:32 | an optional `-` or `+` followed by digits whose value fits in 32 bits parses to that value |
| JavaText.IntRoundTrip | src/main/java/chalkbox/java/junit/JUnitHack.java:32 | parsing the decimal rendering of a 32-bit integer gives it back |
| JavaText.EscapeInjective | src/main/java/chalkbox/java/conformance/Conformance.java:120 | distinct names escape to distinct keys |
| JavaText.RemoveAll | src/main/java/chalkbox/java/conformance/comparator/flags/ListFlag.java:41-48 | the items of one list absent from the other (`removeAll`) |

## Left out

- **Files and archives.** Reading box files, CSV files, lists and zip
  archives is not modelled. Their lines or entries are parameters, and a
  missing file is `None`.
- **The submitted files.** Blackboard's copying of submitted files out of
  the zip is not modelled. Its `loadData` is taken in the case with no
  JSON file, where it returns its input.
- **Output stages.** What output stages write is not modelled; the output
  file chosen by `run` is given only as whether it can be opened.
- **Threads.** The worker threads run one after another. Their results
  are joined in chunk order, which is what `executeProcess` does.
- **HashMap iteration order.** It is a parameter wherever results depend
  on it: the JUnit failure map and Blackboard's final list of collections.
- **Reflection.** Annotations, fields and methods are descriptors.
  The driver does invoke each `@Asset` method of a processor after
  `initClass`, and it catches and prints any exception an asset throws
  (ChalkBox.java:286-292). These calls are omitted: pipe transforms are
  fixed descriptors here, so nothing an asset does can change a modelled
  stream, and a throwing asset changes nothing either. The Prior, Finish
  and GroupPipe annotations are never read by the driver.
- **Console output.** The driver's messages to standard error (such as
  ChalkBox.java:264 and 271), the processors' messages and every
  `printStackTrace` are left out. The field assigner's error lines are
  modelled: `FieldAssigners.FieldAssignerImpl` keeps them in its `stderr`
  field. The help text is returned as a value.
- **Compiling and loading classes.** These are abstract. A compilation
  is its compiler output and the class map it loads.
- **Sleeping Coders.** The cards, the deck object, `pick_card`,
  `select_card`, `get_last_card` and `generate_name` are not part of
  this model; the pickup pile is only its card count.
- **Stack overflow.** `Orchestration.Process` bounds the recursion over
  dependencies with fuel that stands for the stack depth. Running out of
  fuel is the StackOverflowError; the actual depth at which Java
  overflows is not modelled.
- FieldAssigners.FieldAssignerImpl.Assign: a field's type is taken to be
  exactly the overload's parameter type. `getMethod` also accepts a field
  whose declared type is a proper subtype (FieldAssigner.java:44): an
  `ArrayList<String>` field, an `Integer[]` field, a `JarFile` field or a
  field of a `File` subclass. The overload then hands `Field.set` a value
  of the parameter's type (an `Arrays$ArrayList`, a `String[]`, a
  `ZipFile`, a `File`), which throws an uncaught IllegalArgumentException
  (FieldAssignerImpl.java:32-41). That exception is not modelled, and
  likewise not in `Converted`, `SetField`, `AssignFile`, `AssignList`,
  `AssignArray` and `AssignZip`.
- **Final fields.** `Field.set` on a final field throws
  IllegalAccessException, which is caught; such fields are not modelled.
- ProcessRunners.ProcessRunner.ExecuteProcess: requires a non-zero
  thread count. The ArithmeticException that zero threads raise is
  modelled in its caller, `Orchestration.Pipes`.
- ProcessRunners.ProcessRunner.ExecuteProcess: the call at
  ChalkBox.java:298 passes no thread count, so the model supplies the
  stage descriptor's worker count.
- Allocation.Allocate.LoadAllocations: after a line fails, the map is
  left unspecified, because the processor is abandoned at that point.
- JUnitHacks.FlagSolution: after a parse failure, the results are left
  unspecified, because the exception ends the processor.
- JUnitHacks.HackResults: after a parse failure, the results are left
  unspecified, because the exception ends the processor.
- Blackboard.Collect: the order of the returned collections is not
  modelled; the result is the map from sid to collection.
- JUnitParsing.JUnitParser.FormatOutput: the iteration order of the
  failure map is a parameter rather than Java's hash order.
- JavaText.LineSeparator: fixed to `\n`. Java's `System.lineSeparator()`
  is `\r\n` on Windows, which would change the JUnit output
  (JUnitParser.java:57,179), the comparator text (CodeComparator.java:53,58)
  and the help text (ChalkBox.java:349); the model covers only the Unix
  separator.
- JavaText.ParseInt: only the ASCII digits `0`-`9` are digits. Java's
  `Integer.parseInt` also accepts the other Unicode decimal digits, which
  the model rejects.
- SleepingCoders.CodersGame: in Python the game and its TurnManager hold
  the same `players` list (a2_support.py:59,124), and
  `get_sleeping_coders` hands out the game's live coder list
  (a2_support.py:142). The model copies these sequences, so a change made
  through one reference and seen through another is not captured, and
  `get_sleeping_coders` is not modelled.
- SleepingCoders.TurnManager.Peak: Python's default `count=1` is not
  modelled; callers always pass the count. Likewise `build_deck`'s default
  `range_cards=(NumberCard, TutorCard)`: `SleepingCoders.Expand` always
  takes the range classes as an argument.
- Results.Data: `Data.java` is a stub whose `get` and `set` do nothing.
  The store is modelled as a finite map from the full dotted key to a
  value, and `is(key)`, which the stub lacks, as that key holding true.
  `Data.keys(path)`, which JUnitHacks uses to list the solutions and test
  classes, is an input map from a path to its child names
  (`JUnitHacks.Listing`) rather than being derived from the stored keys.
- Blackboard.ReadLine: a value line that comes before any `key:` line is
  modelled as a NullPointerException. This is an assumption, not derived
  from the code: the source then calls `data.set(null, line)`, and
  `Data.set` is an empty stub (Data.java:39-41), so what a real store does
  with a null key is not visible.
