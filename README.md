# cliff command resolution, interactive shell names, and column selection

This project models the core of cliff, a framework for command-line programs
built from plugin subcommands, and proves properties of that model in Dafny.

- **Registry** (`registry.dfy`, cliff/commandmanager.py): the `CommandManager`
  class. Its dictionary `commands` maps a canonical, possibly multi-word name to
  a loader. A loader is a discovered entry point or an `EntryPointWrapper`
  around a class added with `add_command`. The constructor stores the
  namespace's entry points under their names, with `_` turned into a space
  unless conversion is off. `find_command` walks the argument tokens and builds
  a space-joined name. It stops at the first registered name (the shortest
  prefix wins), at the first option token (`-…`) reached before a match, or
  when the tokens run out. The outcome is specified by the predicate
  `Resolves`. The lemmas prove that this predicate fixes the outcome uniquely
  and derive each documented case from it.
- **Interactive** (`interactive.dfy`, cliff/interactive.py): the `InteractiveApp`
  shell without its terminal plumbing. It covers the sorted plugin names
  without "help", the merged name list of `get_names`, and the two completion
  filters. It also covers the help topic name `do_help` builds from the
  leading non-option tokens and the choice between builtin help and
  forwarding `help <arg>`. Lines that are forwarded to the parent application
  are recorded in a ghost log `dispatched`.
- **Selection**, **Lister**, **Show** (`selection.dfy`, `lister.dfy`,
  `show.dfy`, cliff/lister.py and cliff/show.py): the requested columns keep
  their declared order. The boolean selector and `itertools.compress` then
  project each row, or the single record. `Lister` fails when nothing is
  recognised and `ShowOne` does not. `dict2columns` gives sorted keys with the
  values aligned to them.
- **Ordering**, **Text**, **Wrappers**: Python's string ordering and `sorted`,
  `startswith`, single-character `replace`, and a `Result` type for raised
  exceptions.

The matched name is not always the consumed tokens joined by single spaces:
`find_command` extends it with `'%s %s' % (name, next_val) if name else
next_val`, so an empty leading token (as `shlex.split("'' x")` gives) is
dropped rather than joined. `NameOfIsJoin` proves that the name is the
space-joined tokens whenever the first token is not empty.
`LeadingEmptyTokenDropped` shows the case where it is not.

## Model

| member | source | states |
|---|---|---|
| `Registry.CanonicalName` | cliff/commandmanager.py:42 | with conversion on, every `_` of the raw name becomes a space, every other character is kept, and no `_` remains; with conversion off the name is stored verbatim |
| `Registry.TwoPartName` | cliff/commandmanager.py:42 | the raw name "two_part" is stored as "two part" with conversion and as "two_part" without |
| `Registry.CommandManager.constructor` | cliff/commandmanager.py:33-37 | the registry starts empty and then holds exactly the namespace's entry points, loaded in order |
| `Registry.CommandManager.LoadCommands` | cliff/commandmanager.py:39-44 | each entry point is stored, in order, as a deferred loader under its canonical name |
| `Registry.RegisteredKeys` | cliff/commandmanager.py:39-44 | after loading, a name is registered exactly when it was registered before or is the canonical name of some entry point |
| `Registry.RegisteredLastWins` | cliff/commandmanager.py:39-44 | of several entry points with one canonical name, the last one is stored |
| `Registry.RegisteredUntouched` | cliff/commandmanager.py:39-44 | a name that no entry point maps to keeps its earlier loader, or stays absent |
| `Registry.Loader.Load` | cliff/commandmanager.py:20-21 | `load()` of an `EntryPointWrapper` returns the class it was built with; a discovered entry point yields its target class |
| `Registry.CommandManager.AddCommand` | cliff/commandmanager.py:49-50 | `add_command` stores a wrapper whose `load()` returns the given class under the verbatim name; every other name and loader is unchanged |
| `Registry.AddCommandOverwrites` | cliff/commandmanager.py:49-50 | adding a name twice leaves only the second class reachable, as if the first add had not happened |
| `Registry.CommandManager.Items` | cliff/commandmanager.py:46-47 | iteration yields every (name, loader) pair of the registry exactly once, with no other pairs |
| `Registry.CommandManager.FindCommand` | cliff/commandmanager.py:52-69 | the loop's result satisfies `Resolves`: on success some k ≥ 1 leaves no option among the first k tokens, the built name of the first k tokens is registered, no shorter one is, the loaded class is that name's, and the remaining arguments are `argv[k..]`; otherwise it reports the first option reached before any match, or the unknown command naming the whole of `argv`; it modifies nothing |
| `Registry.ResolvesDeterministic` | cliff/commandmanager.py:56-69 | `Resolves` admits exactly one outcome for each registry and argument list, so the specification leaves no choice |
| `Registry.FirstMatchWins` | cliff/commandmanager.py:58-66 | whenever the first k tokens make the first registered name reached, the lookup returns that name and `argv[k..]`, whatever follows |
| `Registry.ShorterNameShadowsLonger` | cliff/commandmanager.py:61-66 | with "foo" and "foo bar" registered, ["foo","bar","x"] resolves to "foo" with ["bar","x"] left |
| `Registry.TrailingFlagIsKept` | cliff/commandmanager.py:58-66 | with "a b c" registered and neither "a" nor "a b", ["a","b","c","--flag"] resolves to "a b c" with ["--flag"] left |
| `Registry.FlagBeforeMatchIsInvalid` | cliff/commandmanager.py:59-60 | an option token reached before any match fails as an invalid command naming that token |
| `Registry.LeadingFlagIsInvalid` | cliff/commandmanager.py:59-60 | an option as the first token fails as invalid whatever the registry holds, even when it is empty |
| `Registry.NoPrefixIsUnknown` | cliff/commandmanager.py:67-69 | without option tokens and with no registered prefix, the lookup fails as unknown and names the whole argument list |
| `Registry.EmptyRegistryIsUnknown` | cliff/commandmanager.py:67-69 | against an empty registry every option-free argument list is unknown |
| `Registry.EmptyArgvIsUnknown` | cliff/commandmanager.py:56-69 | an empty argument list fails as unknown |
| `Registry.NameOfIsJoin` | cliff/commandmanager.py:62 | when the first token is not empty, the built name is the tokens joined by single spaces and is not empty |
| `Registry.LeadingEmptyTokenDropped` | cliff/commandmanager.py:62 | an empty first token is dropped by the `if name` test, so the built name then differs from the space-join |
| `Interactive.InteractiveApp.constructor` | cliff/interactive.py:36-40 | the prompt is "(" + the parent's name + ") ", and nothing has been dispatched yet |
| `Interactive.InteractiveApp.Default` | cliff/interactive.py:51-58 | `default` hands the split line, unchanged, to the parent's `run_subcommand` exactly once |
| `Interactive.InteractiveApp.HelpHelp` | cliff/interactive.py:60-62 | `help_help` forwards the line "help help" to the parent |
| `Interactive.InteractiveApp.PluginCommandNames` | cliff/interactive.py:64-71 | the plugin names are exactly the registry's names other than "help", in ascending order without repeats, and never include "help" |
| `Interactive.BuiltinNames` | cliff/interactive.py:134-139 | the builtins kept are exactly the attribute names that start with `do_` but not with `do__`, each as often as listed |
| `Interactive.InteractiveApp.GetNames` | cliff/interactive.py:128-140 | `get_names` is sorted and holds, counted with repeats, the plugin names plus the visible builtins |
| `Interactive.InteractiveApp.GetNamesMembers` | cliff/interactive.py:128-140 | a name is listed exactly when it is a registry name other than "help" or a visible builtin attribute |
| `Interactive.WithPrefix` | cliff/interactive.py:112-114 | the prefix filter keeps exactly the names starting with the text, each as often as before |
| `Interactive.WithPrefixSorted` | cliff/interactive.py:112-114 | the filter keeps the order, so a sorted list stays sorted |
| `Interactive.InteractiveApp.CompleteDefault` | cliff/interactive.py:107-115 | `completedefault` returns all of `get_names` for an empty text and otherwise exactly the names starting with the text, still sorted |
| `Interactive.InteractiveApp.CompleteDefaultIsFilter` | cliff/interactive.py:107-115 | for every text, including the empty one, `completedefault` equals the prefix filter of `get_names` |
| `Interactive.CompletionName` | cliff/interactive.py:122 | a name starting with `do_` loses that prefix, and any other name is kept |
| `Interactive.InteractiveApp.CompleteNames` | cliff/interactive.py:117-126 | every candidate starts with the text; the candidates are exactly the stripped names that do |
| `Interactive.InteractiveApp.BuiltinCompleted` | cliff/interactive.py:117-126 | a visible builtin `do_x` is offered as `x` when `x` starts with the text |
| `Interactive.InteractiveApp.PluginCompleted` | cliff/interactive.py:117-126 | a plugin name other than "help" and not starting with `do_` is offered verbatim when it starts with the text |
| `Interactive.LeadingWords` | cliff/interactive.py:83-84 | `takewhile` keeps the longest prefix of tokens without an option, stopping at the first option |
| `Interactive.HelpMethodName` | cliff/interactive.py:80-86 | the looked-up attribute starts with "do"; when no token is an option it is "do" followed by `_` and every token; when the first token is an option, or there is none, it is "do" alone |
| `Interactive.HelpMethodNameStopsAtFlag` | cliff/interactive.py:80-86 | tokens from the first option onward do not change the looked-up attribute |
| `Interactive.HelpMethodNameExample` | cliff/interactive.py:80-86 | `help foo bar -x baz` looks for `do_foo_bar` |
| `Interactive.InteractiveApp.DoHelp` | cliff/interactive.py:73-100 | without an argument it shows the builtin overview and the plugin names and forwards nothing; with one, it shows builtin help when the `do_` attribute exists, forwarding "help help" exactly when the topic is `help` and `help_help` exists, and otherwise forwards "help " + arg to `default` exactly once |
| `Interactive.InteractiveApp.DoEOF` | cliff/interactive.py:102-105 | `do_EOF` returns true, which ends the command loop |
| `Ordering.Sort` | cliff/interactive.py:140 | `sorted` returns an ascending permutation of its input under Python's string order |
| `Ordering.SortedUnique` | cliff/interactive.py:140 | two ascending sequences with the same elements, counted with repeats, are equal, so the sorted name list is the one Python produces |
| `Ordering.SortedSet` | cliff/interactive.py:65-71 | sorting a set of names gives them all once each, in strictly ascending order |
| `Ordering.StrictlySortedUnique` | cliff/show.py:55 | two strictly ascending sequences with the same elements are equal, so the sorted keys are determined |
| `Selection.IncludedColumns` | cliff/lister.py:44-46 | the included columns are exactly the declared columns that were requested, never more than declared |
| `Selection.Selector` | cliff/lister.py:51-52 | the selector is as long as the declared columns and is true exactly where the column is included |
| `Selection.CompressSelectsIncluded` | cliff/lister.py:44-52 | compressing the declared names with the selector gives the included columns, in declared order and not request order |
| `Selection.NoneRequested` | cliff/lister.py:44-49 | when no declared column is requested, nothing is included |
| `Selection.CompressNothing` | cliff/show.py:38-45 | a selector without a true position keeps no value |
| `Selection.Compress` | cliff/lister.py:9-10 | `compress` keeps no more values than the data or the selector holds |
| `Selection.CompressKeeps` | cliff/lister.py:9-10 | `compress` keeps only values of the data, never more often than they occur, and keeps all of them under an all-true selector at least as long as the data |
| `Selection.CompressLength` | cliff/lister.py:57-58 | a row as long as the selector keeps one value per true position |
| `Selection.CompressAligned` | cliff/lister.py:51-58 | names and values compressed with one selector stay paired position by position |
| `Lister.ProduceOutput` | cliff/lister.py:39-64 | with no requested columns, all columns and rows pass unchanged; otherwise the included columns are listed and each row is projected by the selector, with the row count kept; it fails exactly when some columns were requested and none is declared, and then nothing is emitted; on success it returns 0 |
| `Lister.ListedRowsAligned` | cliff/lister.py:51-59 | when every row has one value per declared column, each listed row has one value per listed column, under the right name |
| `Show.ProduceOutput` | cliff/show.py:32-46 | with no requested columns, the columns and data pass unchanged; otherwise the included columns and the data compressed by the selector are shown; it returns 0 |
| `Show.ShownEmptySelection` | cliff/show.py:36-46 | when none of the requested columns exists, two empty lists are shown and it returns 0, not an error |
| `Show.ShownAligned` | cliff/show.py:36-45 | when the record has one value per declared column, each shown value stays under its column |
| `Show.Dict2Columns` | cliff/show.py:48-55 | an empty dictionary gives two empty columns; otherwise the keys are all the dictionary's keys, ascending and distinct, and `values[i]` is the value of `keys[i]` |

## Left out

- Plugin discovery through `pkg_resources.iter_entry_points`: the entry points of the namespace are a constructor argument, in the order the index lists them.
- Importing a deferred plugin: `load()` returns the entry point's target class, and import failures are not modelled.
- Errors raised by `parent_app.run_subcommand`: Dafny has no exceptions, so `Default` only records the call in `dispatched`. Propagation of those errors to the command loop is not modelled.
- `shlex.split`: the tokenizer is the class's `split` function, supplied from outside. `find_command` and `do_help` take the token lists as given. `shlex.split` raises `ValueError` on an unclosed quote, so `default` then dispatches nothing; a total `split` function cannot express that failure.
- Interactive.InteractiveApp.DoHelp: of the `help_<topic>` methods that `cmd.Cmd.do_help` may call, only this class's own `help_help` is modelled; a subclass's other `help_<topic>` methods are treated as printing text only.
- The readline/libedit key bindings, the `cmd.Cmd` read loop, the input and output streams passed to `__init__`, and the text that `cmd.Cmd.do_help` and `print_topics` print. `DoHelp` returns a `HelpAction` that names what would be shown instead.
- `hasattr(self, name)` and `cmd.Cmd.get_names`: both are modelled by one list of the class's attribute names. Instance attributes are left out; none of them starts with `do` or is `help_help`, the only names `do_help` asks about.
- `Registry.CommandManager.Items`: the iteration order of the dictionary is left open. The model fixes only which pairs are produced.
- The row generator of `Lister.produce_output` is a sequence here, so errors raised while rows are being produced lazily are not modelled.
- `Show.Dict2Columns`: the keys are strings. The source returns two empty dictionaries for an empty input and tuples otherwise; the model returns two sequences in both cases.
- Python's `sorted` is modelled on strings only, ordered code point by code point.
- cliff/app.py, the formatters, setup.py and demoapp/setup.py are not part of this model. They are argument parsing, logging, packaging and wrappers around output libraries.
- Logging calls everywhere.
