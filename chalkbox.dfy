/**
 * The ChalkBox driver: it reads the box file, resolves the collector,
 * processor and output stages, checks their required configuration items,
 * and then runs collection, processing and output, each only while no
 * error has been flagged. Stage results live in a map from stream name to
 * list.
 *
 * Reflection is replaced by explicit stage descriptors: a registry from
 * class name to `Stage` plays `Class.forName`, and each descriptor lists
 * the stage's annotations, configuration fields and annotated methods
 * together with what invoking them yields. An uncaught Java exception ends
 * the program; it is recorded in `crash`, after which nothing else runs.
 */
module Orchestration {
  import opened Wrappers
  import opened JavaText
  import ProcessRunners

  const NullPointer: string := "NullPointerException"
  const IllegalArgument: string := "IllegalArgumentException"
  const StackOverflow: string := "StackOverflowError"
  const Arithmetic: string := "ArithmeticException"
  const TypeNotPresent: string := "TypeNotPresentException"
  const UnableToFind: string := "Unable to find class: "
  const RequiredClasses: seq<string> := ["collector", "processor", "output"]

  /** What `Field.set` accepts for a field: a String, nothing (a primitive), or only null. */
  datatype FieldKind = TakesString | Primitive | OtherReference

  /** A `@ConfigItem` field: its name and kind with the annotation's key, description and required flag. */
  datatype ConfigItem = ConfigItem(fieldName: string, kind: FieldKind, key: string, description: string, required: bool)

  /** What invoking a `@DataSet` method yields. */
  datatype DataSetResult<T> = ListResult(items: seq<T>) | NotAList | Throws

  datatype DataSetMethod<T> = DataSetMethod(stream: string, result: DataSetResult<T>)

  /** A `@Pipe` method: its stream and its effect on one item (None when the invocation throws). */
  datatype PipeMethod<!T> = PipeMethod(stream: string, transform: T -> Option<T>)

  /**
   * A stage class: its role annotations, whether its no-argument
   * constructor succeeds, its configuration fields, its `@Parser` methods
   * (true for one that throws), `@DataSet`, `@Pipe` and `@Output` methods
   * (the latter by stream), `@Processor(depends)` and the worker count
   * its pipes run with.
   */
  datatype Stage<!T> = Stage(
    isCollector: bool,
    isProcessor: bool,
    instantiable: bool,
    configItems: seq<ConfigItem>,
    parsers: seq<bool>,
    dataSets: seq<DataSetMethod<T>>,
    pipes: seq<PipeMethod<T>>,
    outputs: seq<string>,
    depends: seq<string>,
    threads: int)

  /** The part of the driver's state the phases change. */
  datatype Box<T> = Box(streams: map<string, seq<T>>, hasError: bool, crash: Option<string>)

  /** `map.get(k)`, None for null. */
  function Lookup<V>(m: map<string, V>, k: string): (r: Option<V>)
    ensures r.Some? <==> k in m
    ensures r.Some? ==> r.value == m[k]
  {
    if k in m then Some(m[k]) else None
  }

  /** The configuration key of an item: the annotation's key, or the field name when that is empty. */
  function ItemKey(item: ConfigItem): string
  {
    if item.key == "" then item.fieldName else item.key
  }

  // loadConfig

  /** One line of the box file as `loadConfig` treats it. */
  function ConfigLine(config: map<string, string>, line: string): (r: map<string, string>)
    ensures StartsWith(line, "#") || !Contains(line, "=") ==> r == config
  {
    if StartsWith(line, "#") then config
    else
      match SplitFirst(line, "=")
      case None => config
      case Some((key, value)) => config[key := value]
  }

  /** `loadConfig` over the remaining lines. */
  function ConfigFrom(config: map<string, string>, lines: seq<string>): map<string, string>
    decreases |lines|
  {
    if lines == [] then config else ConfigFrom(ConfigLine(config, lines[0]), lines[1..])
  }

  /** Reading one more line is one more step. */
  lemma {:induction false} ConfigSnoc(config: map<string, string>, lines: seq<string>, line: string)
    ensures ConfigFrom(config, lines + [line]) == ConfigLine(ConfigFrom(config, lines), line)
    decreases |lines|
  {
    if lines != [] {
      assert (lines + [line])[1..] == lines[1..] + [line];
      ConfigSnoc(ConfigLine(config, lines[0]), lines[1..], line);
    }
  }

  /** A later `key=value` line overwrites whatever the earlier lines gave the key. */
  lemma {:induction false} LaterDuplicateWins(config: map<string, string>, lines: seq<string>, key: string, value: string)
    requires '=' !in key && !StartsWith(key, "#")
    ensures var c := ConfigFrom(config, lines + [key + "=" + value]);
      key in c && c[key] == value
  {
    ConfigSnoc(config, lines, key + "=" + value);
    SplitAtFirstSep(key, value, '=');
    var line := key + "=" + value;
    if key == "" {
      assert !StartsWith(line, "#") by {
        assert line[0] == '=';
      }
    } else {
      assert line[..1] == key[..1];
    }
  }

  /** Comment lines and lines without `=` are skipped, so they never change the configuration. */
  lemma {:induction false} SkippedLines(config: map<string, string>, lines: seq<string>, line: string)
    requires StartsWith(line, "#") || '=' !in line
    ensures ConfigFrom(config, lines + [line]) == ConfigFrom(config, lines)
  {
    ConfigSnoc(config, lines, line);
    if !StartsWith(line, "#") {
      forall i: nat | i + 1 <= |line|
        ensures !OccursAt(line, "=", i)
      {
        assert line[i] != '=';
      }
    }
  }

  // validateConfigItems and classHelp

  /** The keys `validateConfigItems` reports, in field order: required items whose key is not configured. */
  function Missing(config: map<string, string>, items: seq<ConfigItem>): (r: seq<string>)
    ensures |r| <= |items|
  {
    if items == [] then []
    else
      var item := items[0];
      (if item.required && ItemKey(item) !in config then [ItemKey(item)] else []) + Missing(config, items[1..])
  }

  /** One step of `Missing`: the item at `i` contributes its key exactly when it is required and unset. */
  lemma {:induction false} MissingStep(config: map<string, string>, items: seq<ConfigItem>, i: nat)
    requires i < |items|
    ensures Missing(config, items[i..]) ==
      (if items[i].required && ItemKey(items[i]) !in config then [ItemKey(items[i])] else []) + Missing(config, items[i + 1..])
  {
    assert items[i..][1..] == items[i + 1..];
  }

  /** The loop of `validateConfigItems`: walk the fields in order and collect each missing required key. */
  method MissingKeys(config: map<string, string>, items: seq<ConfigItem>) returns (found: seq<string>)
    ensures found == Missing(config, items)
  {
    found := [];
    var i := 0;
    while i < |items|
      invariant 0 <= i <= |items|
      invariant found + Missing(config, items[i..]) == Missing(config, items)
    {
      MissingStep(config, items, i);
      var key := ItemKey(items[i]);
      if items[i].required && key !in config {
        assert (found + [key]) + Missing(config, items[i + 1..]) == found + ([key] + Missing(config, items[i + 1..]));
        found := found + [key];
      } else {
        assert [] + Missing(config, items[i + 1..]) == Missing(config, items[i + 1..]);
      }
      i := i + 1;
    }
    assert items[i..] == [];
  }

  /** Every missing required key is reported, and nothing else is. */
  lemma {:induction false} MissingExactly(config: map<string, string>, items: seq<ConfigItem>, key: string)
    ensures key in Missing(config, items) <==>
      key !in config && exists i :: 0 <= i < |items| && items[i].required && ItemKey(items[i]) == key
    decreases |items|
  {
    if items != [] {
      MissingExactly(config, items[1..], key);
      if key in Missing(config, items[1..]) {
        var i :| 0 <= i < |items[1..]| && items[1..][i].required && ItemKey(items[1..][i]) == key;
        assert items[i + 1] == items[1..][i];
      }
      if exists i :: 0 <= i < |items| && items[i].required && ItemKey(items[i]) == key {
        var i :| 0 <= i < |items| && items[i].required && ItemKey(items[i]) == key;
        if i > 0 {
          assert items[1..][i - 1] == items[i];
        }
      }
    }
  }

  /** One line of `classHelp`: the key and the description. */
  function HelpLine(item: ConfigItem): string
  {
    ItemKey(item) + ": " + item.description
  }

  function HelpLines(items: seq<ConfigItem>): (r: seq<string>)
    ensures |r| == |items|
    ensures forall i :: 0 <= i < |items| ==> r[i] == HelpLine(items[i])
  {
    seq(|items|, i requires 0 <= i < |items| => HelpLine(items[i]))
  }

  /** The text `classHelp` returns for a class, or for a name no class has. */
  function HelpText<T>(registry: map<string, Stage<T>>, className: string): string
  {
    if className !in registry then UnableToFind + className
    else JoinLines(HelpLines(registry[className].configItems))
  }

  /** `classHelp`: one line per configuration item, appended in field order. */
  method ClassHelp<T>(registry: map<string, Stage<T>>, className: string) returns (r: string)
    ensures r == HelpText(registry, className)
  {
    if className !in registry {
      return UnableToFind + className;
    }
    var items := registry[className].configItems;
    r := "";
    var i := 0;
    while i < |items|
      invariant 0 <= i <= |items|
      invariant r == JoinLines(HelpLines(items[..i]))
    {
      var line := ItemKey(items[i]) + ": " + items[i].description;
      HelpSnoc(items, i);
      r := r + line + "\n";
      i := i + 1;
    }
    assert items[..i] == items;
  }

  /** The help lines of one more item end with that item's line. */
  lemma {:induction false} HelpSnoc(items: seq<ConfigItem>, i: nat)
    requires i < |items|
    ensures JoinLines(HelpLines(items[..i + 1])) == JoinLines(HelpLines(items[..i])) + HelpLine(items[i]) + "\n"
  {
    assert HelpLines(items[..i + 1]) == HelpLines(items[..i]) + [HelpLine(items[i])];
    JoinLinesSnoc(HelpLines(items[..i]), HelpLine(items[i]));
  }

  /** When keys and descriptions are single lines, the help text reads back as one line per item. */
  lemma HelpOneLinePerItem(items: seq<ConfigItem>)
    requires forall i :: 0 <= i < |items| ==> NoLineBreak(ItemKey(items[i])) && NoLineBreak(items[i].description)
    ensures ReadLines(JoinLines(HelpLines(items))) == HelpLines(items)
  {
    forall i | 0 <= i < |items|
      ensures NoLineBreak(HelpLines(items)[i])
    {
      var k := ItemKey(items[i]);
      var d := items[i].description;
      var line := k + ": " + d;
      forall j | 0 <= j < |line| ensures !IsLineBreak(line[j]) {
        if j < |k| {
          assert line[j] == k[j];
        } else if j >= |k| + 2 {
          assert line[j] == d[j - |k| - 2];
        }
      }
    }
    ReadJoinedLines(HelpLines(items));
  }

  // initClass

  /** The field assignments of `initClass` over the remaining items, or the exception `Field.set` throws. */
  function Assign(config: map<string, string>, items: seq<ConfigItem>, fields: map<string, Option<string>>)
    : (r: Result<map<string, Option<string>>, string>)
    ensures r.Failure? ==> r.error == IllegalArgument
    decreases |items|
  {
    if items == [] then Success(fields)
    else
      var item := items[0];
      var value := Lookup(config, ItemKey(item));
      if item.kind.Primitive? || (item.kind.OtherReference? && value.Some?) then Failure(IllegalArgument)
      else Assign(config, items[1..], fields[item.fieldName := value])
  }

  /**
   * `initClass`: the instance's configured fields, None for a null
   * instance (a failing constructor), or the exception that ends the
   * program: setting a field of a null instance, or a value `Field.set`
   * refuses.
   */
  function Init<T>(config: map<string, string>, stage: Stage<T>): Result<Option<map<string, Option<string>>>, string>
  {
    if !stage.instantiable then
      (if stage.configItems == [] then Success(None) else Failure(NullPointer))
    else
      match Assign(config, stage.configItems, map[])
      case Failure(e) => Failure(e)
      case Success(fields) => Success(Some(fields))
  }

  /** Field names are distinct, as in a Java class. */
  predicate DistinctFields(items: seq<ConfigItem>)
  {
    forall i, j :: 0 <= i < j < |items| ==> items[i].fieldName != items[j].fieldName
  }

  /**
   * Every configuration field receives the raw configured string for its
   * key, or null when the key is absent, whether or not it is required
   * and whatever default it had.
   */
  lemma {:induction false} AssignRaw(config: map<string, string>, items: seq<ConfigItem>, fields: map<string, Option<string>>)
    requires DistinctFields(items) && Assign(config, items, fields).Success?
    ensures var m := Assign(config, items, fields).value;
      (forall i :: 0 <= i < |items| ==> items[i].fieldName in m && m[items[i].fieldName] == Lookup(config, ItemKey(items[i]))) &&
      (forall f :: f in fields && (forall i :: 0 <= i < |items| ==> items[i].fieldName != f) ==> f in m && m[f] == fields[f])
    decreases |items|
  {
    if items != [] {
      var item := items[0];
      var next := fields[item.fieldName := Lookup(config, ItemKey(item))];
      assert DistinctFields(items[1..]) by {
        forall i, j | 0 <= i < j < |items[1..]| ensures items[1..][i].fieldName != items[1..][j].fieldName {
          assert items[1..][i] == items[i + 1] && items[1..][j] == items[j + 1];
        }
      }
      AssignRaw(config, items[1..], next);
      var m := Assign(config, items, fields).value;
      forall i | 0 <= i < |items|
        ensures items[i].fieldName in m && m[items[i].fieldName] == Lookup(config, ItemKey(items[i]))
      {
        if i > 0 {
          assert items[1..][i - 1] == items[i];
        } else {
          forall k | 0 <= k < |items[1..]| ensures items[1..][k].fieldName != item.fieldName {
            assert items[1..][k] == items[k + 1];
          }
        }
      }
      forall f | f in fields && (forall i :: 0 <= i < |items| ==> items[i].fieldName != f)
        ensures f in m && m[f] == fields[f]
      {
        assert items[0].fieldName != f;
        forall k | 0 <= k < |items[1..]| ensures items[1..][k].fieldName != f {
          assert items[1..][k] == items[k + 1];
        }
      }
    }
  }

  /** An optional String field whose key is not configured is set to null, losing its default. */
  lemma OptionalDefaultLost<T>(config: map<string, string>, stage: Stage<T>, i: nat)
    requires DistinctFields(stage.configItems) && i < |stage.configItems|
    requires Init(config, stage).Success? && Init(config, stage).value.Some?
    requires ItemKey(stage.configItems[i]) !in config
    ensures var fields := Init(config, stage).value.value;
      stage.configItems[i].fieldName in fields && fields[stage.configItems[i].fieldName] == None
  {
    AssignRaw(config, stage.configItems, map[]);
  }

  /** A primitive configuration field makes `initClass` throw, configured or not. */
  lemma {:induction false} PrimitiveFieldThrows(config: map<string, string>, items: seq<ConfigItem>, fields: map<string, Option<string>>, i: nat)
    requires i < |items| && items[i].kind.Primitive?
    ensures Assign(config, items, fields) == Failure(IllegalArgument)
    decreases |items|
  {
    if i > 0 {
      var item := items[0];
      if !(item.kind.Primitive? || (item.kind.OtherReference? && Lookup(config, ItemKey(item)).Some?)) {
        assert items[1..][i - 1] == items[i];
        PrimitiveFieldThrows(config, items[1..], fields[item.fieldName := Lookup(config, ItemKey(item))], i - 1);
      }
    }
  }

  /**
   * A configured field of a reference type other than String makes
   * `initClass` throw; the same field left unconfigured is set to null.
   */
  lemma {:induction false} ConfiguredReferenceFieldThrows(config: map<string, string>, items: seq<ConfigItem>,
                                                          fields: map<string, Option<string>>, i: nat)
    requires i < |items| && items[i].kind.OtherReference? && ItemKey(items[i]) in config
    ensures Assign(config, items, fields) == Failure(IllegalArgument)
    decreases |items|
  {
    if i > 0 {
      var item := items[0];
      if !(item.kind.Primitive? || (item.kind.OtherReference? && Lookup(config, ItemKey(item)).Some?)) {
        assert items[1..][i - 1] == items[i];
        ConfiguredReferenceFieldThrows(config, items[1..], fields[item.fieldName := Lookup(config, ItemKey(item))], i - 1);
      }
    }
  }

  // executeCollection

  /** The `@DataSet` loop over the remaining methods. */
  function DataSetsFrom<T>(streams: map<string, seq<T>>, sets: seq<DataSetMethod<T>>): map<string, seq<T>>
    decreases |sets|
  {
    if sets == [] then streams
    else
      match sets[0].result
      case NotAList => streams
      case Throws => DataSetsFrom(streams, sets[1..])
      case ListResult(items) => DataSetsFrom(streams[sets[0].stream := items], sets[1..])
  }

  /** `executeCollection` on the collector class, None for a null class. */
  function Collect<T>(config: map<string, string>, st: Box<T>, collector: Option<Stage<T>>): (r: Box<T>)
    ensures collector.Some? && !collector.value.isCollector ==> r == st.(hasError := true)
    ensures r.crash.None? && !r.hasError ==> collector.Some? && collector.value.isCollector && !st.hasError
  {
    match collector
    case None => st.(crash := Some(NullPointer))
    case Some(stage) =>
      if !stage.isCollector then st.(hasError := true)
      else
        match Init(config, stage)
        case Failure(e) => st.(crash := Some(e))
        case Success(None) => st.(hasError := true)
        case Success(Some(_)) =>
          if true in stage.parsers then st.(hasError := true)
          else st.(streams := DataSetsFrom(st.streams, stage.dataSets))
  }

  /** A `@Parser` method that throws flags an error before any `@DataSet` runs. */
  lemma ThrowingParserStops<T>(config: map<string, string>, st: Box<T>, stage: Stage<T>, i: nat)
    requires stage.isCollector && Init(config, stage).Success? && Init(config, stage).value.Some?
    requires i < |stage.parsers| && stage.parsers[i]
    ensures Collect(config, st, Some(stage)) == st.(hasError := true)
  {
  }

  /** A `@DataSet` that throws leaves its stream as it was, and collection goes on. */
  lemma {:induction false} ThrowingDataSetSkipped<T>(streams: map<string, seq<T>>, d: DataSetMethod<T>, rest: seq<DataSetMethod<T>>)
    requires d.result.Throws?
    ensures DataSetsFrom(streams, [d] + rest) == DataSetsFrom(streams, rest)
  {
    assert ([d] + rest)[1..] == rest;
  }

  /** A `@DataSet` whose result is not a List ends collection: later ones never run. */
  lemma {:induction false} NotAListStops<T>(streams: map<string, seq<T>>, d: DataSetMethod<T>, rest: seq<DataSetMethod<T>>)
    requires d.result.NotAList?
    ensures DataSetsFrom(streams, [d] + rest) == streams
  {
  }

  /** The streams no `@DataSet` method names are kept; a stream gets the list of the last one that returns a list. */
  lemma {:induction false} DataSetsKeepOthers<T>(streams: map<string, seq<T>>, sets: seq<DataSetMethod<T>>, s: string)
    requires forall i :: 0 <= i < |sets| ==> sets[i].stream != s
    ensures s in DataSetsFrom(streams, sets) <==> s in streams
    ensures s in streams ==> DataSetsFrom(streams, sets)[s] == streams[s]
    decreases |sets|
  {
    if sets != [] {
      forall i | 0 <= i < |sets[1..]| ensures sets[1..][i].stream != s {
        assert sets[1..][i] == sets[i + 1];
      }
      match sets[0].result
      case NotAList =>
      case Throws => DataSetsKeepOthers(streams, sets[1..], s);
      case ListResult(items) => DataSetsKeepOthers(streams[sets[0].stream := items], sets[1..], s);
    }
  }

  /** A `@DataSet` returning a list replaces its stream, whatever it held before. */
  lemma {:induction false} DataSetReplaces<T>(streams: map<string, seq<T>>, d: DataSetMethod<T>, rest: seq<DataSetMethod<T>>)
    requires d.result.ListResult?
    requires forall i :: 0 <= i < |rest| ==> rest[i].stream != d.stream
    ensures d.stream in DataSetsFrom(streams, [d] + rest)
    ensures DataSetsFrom(streams, [d] + rest)[d.stream] == d.result.items
  {
    assert ([d] + rest)[1..] == rest;
    DataSetsKeepOthers(streams[d.stream := d.result.items], rest, d.stream);
  }

  // executeProcess

  /** The `@Pipe` loop over the remaining pipes: each replaces its stream by the runner's result. */
  function Pipes<T>(st: Box<T>, pipes: seq<PipeMethod<T>>, threads: int): (r: Box<T>)
    ensures r.hasError == st.hasError
    ensures st.crash.Some? ==> r.crash.Some?
    decreases |pipes|
  {
    if pipes == [] then st
    else
      var p := pipes[0];
      if p.stream !in st.streams then st.(crash := Some(NullPointer))
      else if threads == 0 then st.(crash := Some(Arithmetic))
      else
        var updated := ProcessRunners.Survivors(p.transform, st.streams[p.stream]);
        Pipes(st.(streams := st.streams[p.stream := updated]), pipes[1..], threads)
  }

  /** The stage itself once its dependencies have run: `initClass`, then the pipes. */
  function StageBody<T>(config: map<string, string>, st: Box<T>, stage: Stage<T>): (r: Box<T>)
    ensures st.crash.Some? ==> r.crash.Some?
  {
    match Init(config, stage)
    case Failure(e) => st.(crash := Some(e))
    case Success(None) => st.(hasError := true)
    case Success(Some(_)) => Pipes(st, stage.pipes, stage.threads)
  }

  /**
   * `executeProcess` on the class named `name`. Java's call stack is
   * bounded by `fuel`: a dependency chain deeper than that overflows it.
   */
  function Process<T>(registry: map<string, Stage<T>>, config: map<string, string>, st: Box<T>, name: string, fuel: nat): (r: Box<T>)
    ensures st.crash.Some? ==> r.crash.Some?
    decreases fuel, 1
  {
    if name !in registry then st.(crash := Some(TypeNotPresent))
    else
      var stage := registry[name];
      if !stage.isProcessor then st
      else if !Loadable(registry, stage.depends) then st.(crash := Some(TypeNotPresent))
      else
        var (after, stop) := Dependencies(registry, config, st, name, stage.depends, fuel);
        if stop || after.crash.Some? then after else StageBody(config, after, stage)
  }

  /** Every class in `deps` loads: reading the `depends` array of the annotation does not throw. */
  predicate Loadable<T>(registry: map<string, Stage<T>>, deps: seq<string>)
  {
    forall d :: d in deps ==> d in registry
  }

  /**
   * The dependency loop over the remaining dependencies: stop (true) at a
   * direct self-dependency, otherwise run each one in full. An error flag
   * set by a dependency does not stop the loop; a crash does.
   */
  function Dependencies<T>(registry: map<string, Stage<T>>, config: map<string, string>, st: Box<T>,
                           name: string, deps: seq<string>, fuel: nat): (r: (Box<T>, bool))
    ensures st.crash.Some? ==> r.0.crash.Some?
    decreases fuel, 0, |deps|
  {
    if deps == [] then (st, false)
    else if deps[0] == name then (st, true)
    else if fuel == 0 then (st.(crash := Some(StackOverflow)), false)
    else
      var next := Process(registry, config, st, deps[0], fuel - 1);
      if next.crash.Some? then (next, false) else Dependencies(registry, config, next, name, deps[1..], fuel)
  }

  /** A pipe hands its whole stream to the runner and stores the results, one per item that did not throw. */
  lemma {:induction false} PipeReplacesStream<T>(st: Box<T>, p: PipeMethod<T>, threads: int)
    requires p.stream in st.streams && threads != 0
    ensures Pipes(st, [p], threads).crash == st.crash
    ensures Pipes(st, [p], threads).streams == st.streams[p.stream := ProcessRunners.Survivors(p.transform, st.streams[p.stream])]
  {
  }

  /** A pipe on a stream nothing produced dereferences null in the runner. */
  lemma {:induction false} PipeOnAbsentStream<T>(st: Box<T>, p: PipeMethod<T>, rest: seq<PipeMethod<T>>, threads: int)
    requires p.stream !in st.streams
    ensures Pipes(st, [p] + rest, threads).crash == Some(NullPointer)
  {
  }

  /** A processor listing itself first, among classes that all load, runs nothing and flags no error. */
  lemma {:induction false} SelfDependencyIgnored<T>(registry: map<string, Stage<T>>, config: map<string, string>, st: Box<T>, name: string, fuel: nat)
    requires name in registry && registry[name].isProcessor
    requires forall d :: d in registry[name].depends ==> d in registry
    requires registry[name].depends != [] && registry[name].depends[0] == name
    ensures Process(registry, config, st, name, fuel) == st
  {
  }

  /**
   * A processor listing a class that does not load crashes before any of
   * its dependencies runs, even one listed before that class, and before
   * its own self-dependency is noticed.
   */
  lemma {:induction false} UnloadableDependencyCrashesFirst<T>(registry: map<string, Stage<T>>, config: map<string, string>, st: Box<T>,
                                                               name: string, d: string, fuel: nat)
    requires name in registry && registry[name].isProcessor
    requires d in registry[name].depends && d !in registry
    ensures Process(registry, config, st, name, fuel) == st.(crash := Some(TypeNotPresent))
  {
  }

  /** A class without `@Processor` is skipped without flagging an error. */
  lemma {:induction false} NonProcessorSkipped<T>(registry: map<string, Stage<T>>, config: map<string, string>, st: Box<T>, name: string, fuel: nat)
    requires name in registry && !registry[name].isProcessor
    ensures Process(registry, config, st, name, fuel) == st
  {
  }

  /**
   * Each of `deps` processed in full, in list order, each one with its own
   * dependencies first: the reference order the dependency loop follows.
   */
  function RunInOrder<T>(registry: map<string, Stage<T>>, config: map<string, string>, st: Box<T>,
                         deps: seq<string>, fuel: nat): Box<T>
    decreases |deps|
  {
    if deps == [] then st
    else RunInOrder(registry, config, Process(registry, config, st, deps[0], fuel), deps[1..], fuel)
  }

  /** A crash, once raised, survives the remaining dependencies. */
  lemma {:induction false} RunInOrderKeepsCrash<T>(registry: map<string, Stage<T>>, config: map<string, string>, st: Box<T>,
                                                   deps: seq<string>, fuel: nat)
    requires st.crash.Some?
    ensures RunInOrder(registry, config, st, deps, fuel).crash.Some?
    decreases |deps|
  {
    if deps != [] {
      RunInOrderKeepsCrash(registry, config, Process(registry, config, st, deps[0], fuel), deps[1..], fuel);
    }
  }

  /** Running dependencies that include a class that does not load ends in a crash. */
  lemma {:induction false} UnloadableCrashesRun<T>(registry: map<string, Stage<T>>, config: map<string, string>, st: Box<T>,
                                                   deps: seq<string>, fuel: nat)
    ensures !Loadable(registry, deps) ==> RunInOrder(registry, config, st, deps, fuel).crash.Some?
    decreases |deps|
  {
    if deps != [] {
      var next := Process(registry, config, st, deps[0], fuel);
      if deps[0] !in registry {
        RunInOrderKeepsCrash(registry, config, next, deps[1..], fuel);
      } else {
        UnloadableCrashesRun(registry, config, next, deps[1..], fuel);
        assert forall x :: x in deps ==> x == deps[0] || x in deps[1..];
      }
    }
  }

  /**
   * Without a self-dependency and without a crash, the dependency loop runs
   * every dependency in list order and does not stop early.
   */
  lemma {:induction false} DependenciesInOrder<T>(registry: map<string, Stage<T>>, config: map<string, string>, st: Box<T>,
                                                  name: string, deps: seq<string>, fuel: nat)
    requires name !in deps
    requires RunInOrder(registry, config, st, deps, fuel).crash.None?
    ensures Dependencies(registry, config, st, name, deps, fuel + 1) == (RunInOrder(registry, config, st, deps, fuel), false)
    decreases |deps|
  {
    if deps != [] {
      var next := Process(registry, config, st, deps[0], fuel);
      if next.crash.Some? {
        RunInOrderKeepsCrash(registry, config, next, deps[1..], fuel);
      } else {
        assert name !in deps[1..] by { assert forall k :: 0 <= k < |deps[1..]| ==> deps[1..][k] == deps[k + 1]; }
        DependenciesInOrder(registry, config, next, name, deps[1..], fuel);
      }
    }
  }

  /**
   * A processor that does not depend on itself runs each of its
   * dependencies in full, in list order and depth first, and then itself,
   * whatever error flags those dependencies set.
   */
  lemma {:induction false} DependencyRunsFirst<T>(registry: map<string, Stage<T>>, config: map<string, string>, st: Box<T>,
                                                  name: string, fuel: nat)
    requires name in registry && registry[name].isProcessor
    requires name !in registry[name].depends
    requires RunInOrder(registry, config, st, registry[name].depends, fuel).crash.None?
    ensures Process(registry, config, st, name, fuel + 1) ==
      StageBody(config, RunInOrder(registry, config, st, registry[name].depends, fuel), registry[name])
  {
    UnloadableCrashesRun(registry, config, st, registry[name].depends, fuel);
    DependenciesInOrder(registry, config, st, name, registry[name].depends, fuel);
  }

  /** With `a` depending on `b` and `b` on `c`, the stages run `c`, then `b`, then `a`. */
  lemma {:induction false} DependencyChainDepthFirst<T>(registry: map<string, Stage<T>>, config: map<string, string>, st: Box<T>,
                                                        a: string, b: string, c: string, fuel: nat)
    requires a in registry && b in registry && c in registry
    requires registry[a].isProcessor && registry[a].depends == [b] && b != a
    requires registry[b].isProcessor && registry[b].depends == [c] && c != b
    requires registry[c].isProcessor && registry[c].depends == []
    requires StageBody(config, StageBody(config, st, registry[c]), registry[b]).crash.None?
    ensures Process(registry, config, st, a, fuel + 2) ==
      StageBody(config, StageBody(config, StageBody(config, st, registry[c]), registry[b]), registry[a])
  {
    var afterC := StageBody(config, st, registry[c]);
    var afterB := StageBody(config, afterC, registry[b]);
    assert Dependencies(registry, config, st, c, [], fuel) == (st, false);
    assert RunInOrder(registry, config, st, [c], fuel) == afterC;
    DependencyRunsFirst(registry, config, st, b, fuel);
    assert RunInOrder(registry, config, st, [b], fuel + 1) == afterB;
    DependencyRunsFirst(registry, config, st, a, fuel + 1);
  }

  /** Two processors depending on each other recurse until the stack overflows. */
  lemma {:induction false} MutualDependencyOverflows<T>(registry: map<string, Stage<T>>, config: map<string, string>,
                                                        st: Box<T>, a: string, b: string, fuel: nat)
    requires a in registry && b in registry && a != b
    requires registry[a].isProcessor && registry[a].depends == [b]
    requires registry[b].isProcessor && registry[b].depends == [a]
    ensures Process(registry, config, st, a, fuel).crash == Some(StackOverflow)
    decreases fuel
  {
    if fuel > 0 {
      MutualDependencyOverflows(registry, config, st, b, a, fuel - 1);
    }
  }

  // sendOutput

  /** What each `@Output` method is handed: its stream, or null. */
  function Deliveries<T>(streams: map<string, seq<T>>, outputs: seq<string>): (r: seq<(string, Option<seq<T>>)>)
    ensures |r| == |outputs|
    ensures forall i :: 0 <= i < |outputs| ==> r[i] == (outputs[i], Lookup(streams, outputs[i]))
  {
    seq(|outputs|, i requires 0 <= i < |outputs| => (outputs[i], Lookup(streams, outputs[i])))
  }

  /** `sendOutput`: the new flags and what the output methods received; `canOpen` says whether the output file opens. */
  function Send<T>(config: map<string, string>, st: Box<T>, output: Option<Stage<T>>, canOpen: bool)
    : (Box<T>, seq<(string, Option<seq<T>>)>)
  {
    match output
    case None => (st.(crash := Some(NullPointer)), [])
    case Some(stage) =>
      match Init(config, stage)
      case Failure(e) => (st.(crash := Some(e)), [])
      case Success(None) => (st.(hasError := true), [])
      case Success(Some(_)) => if canOpen then (st, Deliveries(st.streams, stage.outputs)) else (st, [])
  }

  /** Whether the configuration names all three stage classes. */
  predicate HasClasses(config: map<string, string>)
  {
    forall k :: k in RequiredClasses ==> k in config
  }

  /** Whether all three configured stage classes can be loaded. */
  predicate Loads<T>(registry: map<string, Stage<T>>, config: map<string, string>)
    requires HasClasses(config)
  {
    config["collector"] in registry && config["processor"] in registry && config["output"] in registry
  }

  /** What the constructor reports: the missing keys of the collector, the processor and the output, in turn. */
  function AllMissing<T>(registry: map<string, Stage<T>>, config: map<string, string>): seq<string>
    requires HasClasses(config) && Loads(registry, config)
  {
    Missing(config, registry[config["collector"]].configItems) +
    Missing(config, registry[config["processor"]].configItems) +
    Missing(config, registry[config["output"]].configItems)
  }

  /** The stage a configured class name resolves to, None for Java's null. */
  function Resolve<T>(registry: map<string, Stage<T>>, name: Option<string>): (r: Option<Stage<T>>)
    ensures r.Some? <==> name.Some? && name.value in registry
  {
    if name.Some? && name.value in registry then Some(registry[name.value]) else None
  }

  /** Whether the program is still running and no error is flagged. */
  predicate Proceeds<T>(st: Box<T>)
  {
    !st.hasError && st.crash.None?
  }

  /** `run`: collection, processing and output, each only while no error is flagged. */
  function RunAll<T>(registry: map<string, Stage<T>>, config: map<string, string>, st: Box<T>,
                     collector: Option<string>, processor: Option<string>, output: Option<string>,
                     fuel: nat, canOpen: bool): (Box<T>, seq<(string, Option<seq<T>>)>)
  {
    var afterCollect := if Proceeds(st) then Collect(config, st, Resolve(registry, collector)) else st;
    var afterProcess :=
      if !Proceeds(afterCollect) then afterCollect
      else if Resolve(registry, processor).None? then afterCollect.(crash := Some(NullPointer))
      else Process(registry, config, afterCollect, processor.value, fuel);
    if Proceeds(afterProcess) then Send(config, afterProcess, Resolve(registry, output), canOpen) else (afterProcess, [])
  }

  /** Once an error is flagged, `run` does nothing at all. */
  lemma ErrorStopsRun<T>(registry: map<string, Stage<T>>, config: map<string, string>, st: Box<T>,
                         collector: Option<string>, processor: Option<string>, output: Option<string>,
                         fuel: nat, canOpen: bool)
    requires st.hasError
    ensures RunAll(registry, config, st, collector, processor, output, fuel, canOpen) == (st, [])
  {
  }

  /** A processor that flags an error keeps the output stage from running. */
  lemma {:induction false} ProcessErrorSkipsOutput<T>(registry: map<string, Stage<T>>, config: map<string, string>, st: Box<T>,
                                   collector: Option<string>, processor: Option<string>, output: Option<string>,
                                   fuel: nat, canOpen: bool)
    requires Proceeds(st)
    requires var c := Collect(config, st, Resolve(registry, collector));
      Proceeds(c) && processor.Some? && Process(registry, config, c, processor.value, fuel).hasError
    ensures RunAll(registry, config, st, collector, processor, output, fuel, canOpen).1 == []
  {
  }

  /** The driver. `registry` plays `Class.forName`; `depth` bounds the Java call stack. */
  class ChalkBox<T> {
    const registry: map<string, Stage<T>>
    const depth: nat
    var config: map<string, string>
    var streams: map<string, seq<T>>
    var hasError: bool
    var crash: Option<string>
    var collector: Option<string>
    var processor: Option<string>
    var output: Option<string>
    var reported: seq<string>

    function State(): Box<T>
      reads this
    {
      Box(streams, hasError, crash)
    }

    /** The part of the state only the constructor sets. */
    function Settings(): (map<string, string>, seq<string>, Option<string>, Option<string>, Option<string>)
      reads this
    {
      (config, reported, collector, processor, output)
    }

    /**
     * The constructor: read the box file (None when it cannot be read),
     * require the three stage classes, resolve them and check their
     * required configuration items.
     */
    constructor(registry: map<string, Stage<T>>, depth: nat, file: Option<string>)
      ensures this.registry == registry && this.depth == depth && streams == map[]
      ensures file.None? ==> hasError && crash.None? && config == map[] && reported == []
      ensures file.Some? ==> config == ConfigFrom(map[], ReadLines(file.value))
      ensures file.Some? && !HasClasses(config) ==> hasError && crash.None? && reported == []
      ensures file.Some? && HasClasses(config) ==>
        collector == Some(config["collector"]) && processor == Some(config["processor"]) && output == Some(config["output"])
      ensures file.Some? && HasClasses(config) && !Loads(registry, config) ==> crash == Some(NullPointer)
      ensures file.Some? && HasClasses(config) && Loads(registry, config) ==>
        crash.None? && reported == AllMissing(registry, config) && (hasError <==> reported != [])
    {
      this.registry := registry;
      this.depth := depth;
      config := map[];
      streams := map[];
      hasError := false;
      crash := None;
      collector := None;
      processor := None;
      output := None;
      reported := [];
      new;
      if file.None? {
        hasError := true;
        return;
      }
      Open(file.value);
    }

    /** The constructor once the box file has been read: load it, require the stage classes and check them. */
    method Open(text: string)
      requires config == map[] && streams == map[] && !hasError && crash.None? && reported == []
      modifies this
      ensures streams == map[] && config == ConfigFrom(map[], ReadLines(text))
      ensures !HasClasses(config) ==> hasError && crash.None? && reported == []
      ensures HasClasses(config) ==>
        collector == Some(config["collector"]) && processor == Some(config["processor"]) && output == Some(config["output"])
      ensures HasClasses(config) && !Loads(registry, config) ==> crash == Some(NullPointer)
      ensures HasClasses(config) && Loads(registry, config) ==>
        crash.None? && reported == AllMissing(registry, config) && (hasError <==> reported != [])
    {
      LoadConfig(text);
      var ok := RequiredClassesPresent();
      if !ok {
        hasError := true;
        return;
      }
      collector := Some(config["collector"]);
      processor := Some(config["processor"]);
      output := Some(config["output"]);
      ValidateStages();
    }

    /** The three `validateConfigItems` calls of the constructor, in turn. */
    method ValidateStages()
      requires HasClasses(config) && crash.None? && !hasError && reported == []
      requires collector == Some(config["collector"]) && processor == Some(config["processor"]) && output == Some(config["output"])
      modifies this
      ensures config == old(config) && streams == old(streams)
      ensures collector == old(collector) && processor == old(processor) && output == old(output)
      ensures !Loads(registry, config) ==> crash == Some(NullPointer)
      ensures Loads(registry, config) ==> crash.None? && reported == AllMissing(registry, config) && (hasError <==> reported != [])
    {
      ValidateClass(collector);
      if crash.Some? {
        return;
      }
      ValidateClass(processor);
      if crash.Some? {
        return;
      }
      ValidateClass(output);
    }

    /** The check that the box file names all three stage classes. */
    method RequiredClassesPresent() returns (ok: bool)
      ensures ok <==> HasClasses(config)
    {
      for i := 0 to |RequiredClasses|
        invariant forall j :: 0 <= j < i ==> RequiredClasses[j] in config
      {
        if RequiredClasses[i] !in config {
          return false;
        }
      }
      return true;
    }

    /** `validateConfigItems` on a loaded class; a class that failed to load is null, and the call throws. */
    method ValidateClass(className: Option<string>)
      requires crash.None?
      modifies this
      ensures Resolve(registry, className).None? ==>
        crash == Some(NullPointer) && hasError == old(hasError) && reported == old(reported)
      ensures Resolve(registry, className).Some? ==>
        var missing := Missing(config, Resolve(registry, className).value.configItems);
        crash.None? && reported == old(reported) + missing && hasError == (old(hasError) || missing != [])
      ensures config == old(config) && streams == old(streams)
      ensures collector == old(collector) && processor == old(processor) && output == old(output)
    {
      if Resolve(registry, className).None? {
        crash := Some(NullPointer);
        return;
      }
      ValidateConfigItems(registry[className.value]);
    }

    /** `loadConfig` on the file's text: comment lines and lines without `=` are skipped. */
    method LoadConfig(text: string)
      modifies this
      ensures config == ConfigFrom(old(config), ReadLines(text))
      ensures streams == old(streams) && hasError == old(hasError) && crash == old(crash) && reported == old(reported)
    {
      var lines := ReadLines(text);
      var i := 0;
      while i < |lines|
        invariant 0 <= i <= |lines|
        invariant ConfigFrom(config, lines[i..]) == ConfigFrom(old(config), lines)
        invariant streams == old(streams) && hasError == old(hasError) && crash == old(crash) && reported == old(reported)
      {
        assert lines[i..][1..] == lines[i + 1..];
        var line := lines[i];
        i := i + 1;
        if StartsWith(line, "#") {
          continue;
        }
        var parts := SplitFirst(line, "=");
        if parts.Some? {
          config := config[parts.value.0 := parts.value.1];
        }
      }
    }

    /** `validateConfigItems`: every missing required key is reported and flags an error. */
    method ValidateConfigItems(stage: Stage<T>)
      modifies this
      ensures reported == old(reported) + Missing(config, stage.configItems)
      ensures hasError == (old(hasError) || Missing(config, stage.configItems) != [])
      ensures config == old(config) && streams == old(streams) && crash == old(crash)
      ensures collector == old(collector) && processor == old(processor) && output == old(output)
    {
      var found := MissingKeys(config, stage.configItems);
      reported := reported + found;
      if found != [] {
        hasError := true;
      }
    }

    /** `initClass`: the instance's configured fields, None for null, or the exception. */
    method InitClass(stage: Stage<T>) returns (r: Result<Option<map<string, Option<string>>>, string>)
      ensures r == Init(config, stage)
    {
      if !stage.instantiable {
        if stage.configItems == [] {
          return Success(None);
        }
        return Failure(NullPointer);
      }
      var items := stage.configItems;
      var fields: map<string, Option<string>> := map[];
      var i := 0;
      while i < |items|
        invariant 0 <= i <= |items|
        invariant Assign(config, items[i..], fields) == Assign(config, items, map[])
      {
        assert items[i..][1..] == items[i + 1..];
        var value := Lookup(config, ItemKey(items[i]));
        if items[i].kind.Primitive? || (items[i].kind.OtherReference? && value.Some?) {
          return Failure(IllegalArgument);
        }
        fields := fields[items[i].fieldName := value];
        i := i + 1;
      }
      return Success(Some(fields));
    }

    /** `executeCollection`. */
    method ExecuteCollection(collectorStage: Option<Stage<T>>)
      modifies this
      ensures State() == Collect(config, old(State()), collectorStage)
      ensures Settings() == old(Settings())
    {
      if collectorStage.None? {
        crash := Some(NullPointer);
        return;
      }
      var stage := collectorStage.value;
      if !stage.isCollector {
        hasError := true;
        return;
      }
      var instance := InitClass(stage);
      if instance.Failure? {
        crash := Some(instance.error);
        return;
      }
      if instance.value.None? {
        hasError := true;
        return;
      }
      for i := 0 to |stage.parsers|
        invariant true !in stage.parsers[..i]
        invariant State() == old(State()) && Settings() == old(Settings())
      {
        if stage.parsers[i] {
          hasError := true;
          return;
        }
        assert stage.parsers[..i + 1] == stage.parsers[..i] + [stage.parsers[i]];
      }
      assert stage.parsers[..|stage.parsers|] == stage.parsers;
      var sets := stage.dataSets;
      ghost var start := streams;
      var i := 0;
      while i < |sets|
        invariant 0 <= i <= |sets|
        invariant DataSetsFrom(streams, sets[i..]) == DataSetsFrom(start, sets)
        invariant hasError == old(hasError) && crash == old(crash) && Settings() == old(Settings())
      {
        assert sets[i..][1..] == sets[i + 1..];
        match sets[i].result {
          case NotAList =>
            return;
          case Throws =>
          case ListResult(items) =>
            streams := streams[sets[i].stream := items];
        }
        i := i + 1;
      }
    }

    /** The pipe loop of `executeProcess`: each pipe's stream goes through the runner. */
    method RunPipes(pipes: seq<PipeMethod<T>>, threads: int)
      requires crash.None?
      modifies this
      ensures State() == Pipes(old(State()), pipes, threads)
      ensures Settings() == old(Settings())
    {
      ghost var start := State();
      var i := 0;
      while i < |pipes|
        invariant 0 <= i <= |pipes|
        invariant crash.None?
        invariant Pipes(State(), pipes[i..], threads) == Pipes(start, pipes, threads)
        invariant Settings() == old(Settings())
      {
        assert pipes[i..][1..] == pipes[i + 1..];
        var pipe := pipes[i];
        if pipe.stream !in streams {
          crash := Some(NullPointer);
          return;
        }
        if threads == 0 {
          crash := Some(Arithmetic);
          return;
        }
        var updated;
        ghost var segments;
        updated, segments := ProcessRunners.ProcessRunner<T>.ExecuteProcess(streams[pipe.stream], pipe.transform, threads);
        streams := streams[pipe.stream := updated];
        i := i + 1;
      }
    }

    /** The stage body of `executeProcess`: `initClass`, then the pipes. */
    method RunStage(stage: Stage<T>)
      requires crash.None?
      modifies this
      ensures State() == StageBody(config, old(State()), stage)
      ensures Settings() == old(Settings())
    {
      var instance := InitClass(stage);
      if instance.Failure? {
        crash := Some(instance.error);
        return;
      }
      if instance.value.None? {
        hasError := true;
        return;
      }
      RunPipes(stage.pipes, stage.threads);
    }

    /** `executeProcess`: dependencies first, depth first, then the stage itself. */
    method ExecuteProcess(name: string, fuel: nat)
      requires crash.None?
      modifies this
      ensures State() == Process(registry, config, old(State()), name, fuel)
      ensures Settings() == old(Settings())
      decreases fuel
    {
      if name !in registry {
        crash := Some(TypeNotPresent);
        return;
      }
      var stage := registry[name];
      if !stage.isProcessor {
        return;
      }
      var deps := stage.depends;
      if !Loadable(registry, deps) {
        crash := Some(TypeNotPresent);
        return;
      }
      ghost var start := State();
      var i := 0;
      while i < |deps|
        invariant 0 <= i <= |deps|
        invariant crash.None?
        invariant Dependencies(registry, config, State(), name, deps[i..], fuel) ==
          Dependencies(registry, config, start, name, deps, fuel)
        invariant Settings() == old(Settings())
      {
        assert deps[i..][1..] == deps[i + 1..];
        var dep := deps[i];
        if dep == name {
          return;
        }
        if fuel == 0 {
          crash := Some(StackOverflow);
          return;
        }
        ExecuteProcess(dep, fuel - 1);
        if crash.Some? {
          return;
        }
        i := i + 1;
      }
      RunStage(stage);
    }

    /** `sendOutput`: what each output method is handed. */
    method SendOutput(outputStage: Option<Stage<T>>, canOpen: bool) returns (deliveries: seq<(string, Option<seq<T>>)>)
      modifies this
      ensures (State(), deliveries) == Send(config, old(State()), outputStage, canOpen)
      ensures Settings() == old(Settings()) && streams == old(streams)
    {
      deliveries := [];
      if outputStage.None? {
        crash := Some(NullPointer);
        return;
      }
      var stage := outputStage.value;
      var instance := InitClass(stage);
      if instance.Failure? {
        crash := Some(instance.error);
        return;
      }
      if instance.value.None? {
        hasError := true;
        return;
      }
      if !canOpen {
        return;
      }
      for i := 0 to |stage.outputs|
        invariant deliveries == Deliveries(streams, stage.outputs[..i])
      {
        deliveries := deliveries + [(stage.outputs[i], Lookup(streams, stage.outputs[i]))];
      }
      assert stage.outputs[..|stage.outputs|] == stage.outputs;
    }

    /** `run`: each phase only while no error is flagged (and the program has not died). */
    method Run(canOpen: bool) returns (deliveries: seq<(string, Option<seq<T>>)>)
      modifies this
      ensures (State(), deliveries) ==
        RunAll(registry, config, old(State()), collector, processor, output, depth, canOpen)
    {
      deliveries := [];
      if !hasError && crash.None? {
        ExecuteCollection(Resolve(registry, collector));
      }
      if !hasError && crash.None? {
        if Resolve(registry, processor).None? {
          crash := Some(NullPointer);
        } else {
          ExecuteProcess(processor.value, depth);
        }
      }
      if !hasError && crash.None? {
        deliveries := SendOutput(Resolve(registry, output), canOpen);
      }
    }
  }
}
