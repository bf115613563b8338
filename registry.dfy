/**
 * The plugin registry of cliff/commandmanager.py: a dictionary from command
 * name to loader, filled from the entry points of a namespace, extended by
 * `add_command`, and searched by `find_command`, which resolves the leading
 * tokens of an argument list to the shortest registered multi-word name.
 */
module Registry {
  import opened Wrappers
  import opened Text

  /** A command implementation, identified by the import path it is loaded from. */
  datatype CommandClass = CommandClass(path: string)

  /**
   * A plugin that the host's entry-point index advertises under the
   * namespace: its raw name and the class that `ep.load()` imports.
   */
  datatype EntryPoint = EntryPoint(name: string, target: CommandClass)

  /**
   * What the dictionary stores: a discovered entry point, loaded lazily, or
   * an `EntryPointWrapper` around a class registered at run time.
   */
  datatype Loader =
    | Deferred(entryPoint: EntryPoint)
    | Wrapper(name: string, commandClass: CommandClass)
  {
    /** `load()`: the command class this loader stands for. */
    function Load(): (c: CommandClass)
      ensures Deferred? ==> c == entryPoint.target
      ensures Wrapper? ==> c == commandClass
    {
      match this
      case Deferred(ep) => ep.target
      case Wrapper(_, c) => c
    }
  }

  /** A successful lookup: `(cmd_factory, name, search_args)`. */
  datatype Match = Match(factory: CommandClass, name: string, remaining: seq<string>)

  /** The two `ValueError`s that `find_command` raises. */
  datatype CommandError =
    | InvalidCommand(token: string)
    | UnknownCommand(argv: seq<string>)

  /** The key under which an entry point named `raw` is stored. */
  function CanonicalName(raw: string, convertUnderscores: bool): (name: string)
    ensures |name| == |raw|
    ensures convertUnderscores ==> '_' !in name
    ensures convertUnderscores ==>
      forall i :: 0 <= i < |raw| ==> name[i] == (if raw[i] == '_' then ' ' else raw[i])
    ensures !convertUnderscores ==> name == raw
  {
    if convertUnderscores then
      ReplaceCharRemovesOld(raw, '_', ' ');
      ReplaceChar(raw, '_', ' ')
    else raw
  }

  /** The registry after storing `entryPoints`, in order, on top of `initial`. */
  function Registered(initial: map<string, Loader>, entryPoints: seq<EntryPoint>,
                      convertUnderscores: bool): map<string, Loader>
    decreases |entryPoints|
  {
    if entryPoints == [] then initial
    else
      var last := entryPoints[|entryPoints| - 1];
      Registered(initial, entryPoints[..|entryPoints| - 1], convertUnderscores)
        [CanonicalName(last.name, convertUnderscores) := Deferred(last)]
  }

  /** A registry key is either an initial key or the canonical name of some entry point. */
  lemma {:induction false} RegisteredKeys(initial: map<string, Loader>, entryPoints: seq<EntryPoint>,
                                          convertUnderscores: bool, key: string)
    ensures key in Registered(initial, entryPoints, convertUnderscores) <==>
      key in initial ||
      exists i :: 0 <= i < |entryPoints| && CanonicalName(entryPoints[i].name, convertUnderscores) == key
    decreases |entryPoints|
  {
    if entryPoints != [] {
      var n := |entryPoints| - 1;
      RegisteredKeys(initial, entryPoints[..n], convertUnderscores, key);
      if CanonicalName(entryPoints[n].name, convertUnderscores) != key {
        forall i | 0 <= i < |entryPoints| && CanonicalName(entryPoints[i].name, convertUnderscores) == key
          ensures i < n && entryPoints[..n][i] == entryPoints[i] {}
      }
    }
  }

  /**
   * Of several entry points with the same canonical name the last one is
   * stored; a key no entry point maps to keeps its initial loader.
   */
  lemma {:induction false} RegisteredLastWins(initial: map<string, Loader>, entryPoints: seq<EntryPoint>,
                                              convertUnderscores: bool, i: nat)
    requires i < |entryPoints|
    requires forall j :: i < j < |entryPoints| ==>
      CanonicalName(entryPoints[j].name, convertUnderscores) != CanonicalName(entryPoints[i].name, convertUnderscores)
    ensures CanonicalName(entryPoints[i].name, convertUnderscores) in Registered(initial, entryPoints, convertUnderscores)
    ensures Registered(initial, entryPoints, convertUnderscores)[CanonicalName(entryPoints[i].name, convertUnderscores)]
      == Deferred(entryPoints[i])
    decreases |entryPoints|
  {
    var n := |entryPoints| - 1;
    if i < n {
      RegisteredLastWins(initial, entryPoints[..n], convertUnderscores, i);
    }
  }

  lemma {:induction false} RegisteredUntouched(initial: map<string, Loader>, entryPoints: seq<EntryPoint>,
                                               convertUnderscores: bool, key: string)
    requires forall i :: 0 <= i < |entryPoints| ==> CanonicalName(entryPoints[i].name, convertUnderscores) != key
    ensures key in Registered(initial, entryPoints, convertUnderscores) <==> key in initial
    ensures key in initial ==> Registered(initial, entryPoints, convertUnderscores)[key] == initial[key]
    decreases |entryPoints|
  {
    if entryPoints != [] {
      var n := |entryPoints| - 1;
      RegisteredUntouched(initial, entryPoints[..n], convertUnderscores, key);
    }
  }

  /** `name = '%s %s' % (name, next_val) if name else next_val`. */
  function Extend(name: string, token: string): string {
    if name == "" then token else name + " " + token
  }

  /** The name `find_command` has built after consuming `tokens`. */
  function NameOf(tokens: seq<string>): string
    decreases |tokens|
  {
    if tokens == [] then ""
    else Extend(NameOf(tokens[..|tokens| - 1]), tokens[|tokens| - 1])
  }

  /** `' '.join(tokens)`. */
  function JoinSpace(tokens: seq<string>): string
    decreases |tokens|
  {
    if tokens == [] then ""
    else if |tokens| == 1 then tokens[0]
    else JoinSpace(tokens[..|tokens| - 1]) + " " + tokens[|tokens| - 1]
  }

  /**
   * The built name is the tokens joined by single spaces, provided the first
   * token is not empty: an empty leading token leaves `name` empty, so
   * the `if name` test drops it instead of joining it.
   */
  lemma {:induction false} NameOfIsJoin(tokens: seq<string>)
    requires tokens != [] && tokens[0] != ""
    ensures NameOf(tokens) == JoinSpace(tokens)
    ensures NameOf(tokens) != ""
    decreases |tokens|
  {
    var n := |tokens| - 1;
    if n > 0 {
      assert tokens[..n][0] == tokens[0];
      NameOfIsJoin(tokens[..n]);
    } else {
      assert tokens[..n] == [];
    }
  }

  lemma LeadingEmptyTokenDropped(token: string)
    ensures NameOf(["", token]) == token
    ensures token != "" ==> NameOf(["", token]) != JoinSpace(["", token])
  {
    assert ["", token][..1] == [""];
    assert [""][..0] == [];
    assert JoinSpace(["", token]) == " " + token by {
      assert JoinSpace(["", token][..1]) == "";
    }
  }

  /** `s.startswith('-')`: the token is an option, not part of a command name. */
  predicate IsFlag(token: string) {
    StartsWith(token, "-")
  }

  lemma NotFlag(token: string)
    requires token != [] && token[0] != '-'
    ensures !IsFlag(token)
  {
    assert token[..1][0] == token[0];
  }

  lemma NameOfSnoc(tokens: seq<string>, token: string)
    ensures NameOf(tokens + [token]) == Extend(NameOf(tokens), token)
  {
    assert (tokens + [token])[..|tokens|] == tokens;
  }

  /**
   * The first `k` tokens were each consumed without tripping the option
   * check and without the name built so far being registered.
   */
  ghost predicate ScanClear(commands: map<string, Loader>, argv: seq<string>, k: nat)
    requires k <= |argv|
  {
    forall j :: 0 <= j < k ==> !IsFlag(argv[j]) && NameOf(argv[..j + 1]) !in commands
  }

  /**
   * `r` is what `find_command(argv)` gives against `commands`: the first
   * registered name built from the leading tokens, with the tokens after
   * it; the first option token met before any match; or, when neither
   * happens, the unknown-command error naming the whole of `argv`.
   */
  ghost predicate Resolves(commands: map<string, Loader>, argv: seq<string>, r: Result<Match, CommandError>) {
    match r
    case Ok(m) =>
      var k := |argv| - |m.remaining|;
      && 0 < k <= |argv|
      && m.remaining == argv[k..]
      && ScanClear(commands, argv, k - 1)
      && !IsFlag(argv[k - 1])
      && m.name == NameOf(argv[..k])
      && m.name in commands
      && m.factory == commands[m.name].Load()
    case Err(InvalidCommand(token)) =>
      exists k :: 0 <= k < |argv| && ScanClear(commands, argv, k) && argv[k] == token && IsFlag(token)
    case Err(UnknownCommand(a)) =>
      a == argv && ScanClear(commands, argv, |argv|)
  }

  /** The index at which the scan stopped. */
  ghost function StopIndex(commands: map<string, Loader>, argv: seq<string>, r: Result<Match, CommandError>): (k: nat)
    requires Resolves(commands, argv, r)
    ensures k <= |argv| && ScanClear(commands, argv, k)
    ensures k < |argv| ==> IsFlag(argv[k]) || NameOf(argv[..k + 1]) in commands
    ensures r.Err? && r.error.UnknownCommand? <==> k == |argv|
    ensures r.Err? && r.error.InvalidCommand? ==> k < |argv| && IsFlag(argv[k])
    ensures r.Ok? ==> k < |argv| && !IsFlag(argv[k])
  {
    match r
    case Ok(m) => |argv| - |m.remaining| - 1
    case Err(InvalidCommand(token)) =>
      var k :| 0 <= k < |argv| && ScanClear(commands, argv, k) && argv[k] == token && IsFlag(token); k
    case Err(UnknownCommand(_)) => |argv|
  }

  /** The outcome of a lookup is determined by the registry and the arguments. */
  lemma ResolvesDeterministic(commands: map<string, Loader>, argv: seq<string>,
                              r1: Result<Match, CommandError>, r2: Result<Match, CommandError>)
    requires Resolves(commands, argv, r1) && Resolves(commands, argv, r2)
    ensures r1 == r2
  {
    var k1 := StopIndex(commands, argv, r1);
    var k2 := StopIndex(commands, argv, r2);
    assert k1 == k2;
  }

  /**
   * Shortest prefix wins: whenever the first `k` tokens form the first
   * registered name reached, the lookup returns that name and `argv[k..]`,
   * whatever follows (options included).
   */
  lemma FirstMatchWins(commands: map<string, Loader>, argv: seq<string>, k: nat, r: Result<Match, CommandError>)
    requires 0 < k <= |argv|
    requires ScanClear(commands, argv, k - 1) && !IsFlag(argv[k - 1]) && NameOf(argv[..k]) in commands
    requires Resolves(commands, argv, r)
    ensures r == Ok(Match(commands[NameOf(argv[..k])].Load(), NameOf(argv[..k]), argv[k..]))
  {
    var expected := Ok(Match(commands[NameOf(argv[..k])].Load(), NameOf(argv[..k]), argv[k..]));
    assert |argv| - |argv[k..]| == k;
    assert Resolves(commands, argv, expected);
    ResolvesDeterministic(commands, argv, r, expected);
  }

  /** An option reached before any match is reported, even as the first token. */
  lemma FlagBeforeMatchIsInvalid(commands: map<string, Loader>, argv: seq<string>, k: nat, r: Result<Match, CommandError>)
    requires k < |argv| && ScanClear(commands, argv, k) && IsFlag(argv[k])
    requires Resolves(commands, argv, r)
    ensures r == Err(InvalidCommand(argv[k]))
  {
    assert Resolves(commands, argv, Err(InvalidCommand(argv[k])));
    ResolvesDeterministic(commands, argv, r, Err(InvalidCommand(argv[k])));
  }

  /** An option as the first token fails, whatever the registry holds. */
  lemma LeadingFlagIsInvalid(commands: map<string, Loader>, argv: seq<string>, r: Result<Match, CommandError>)
    requires argv != [] && IsFlag(argv[0])
    requires Resolves(commands, argv, r)
    ensures r == Err(InvalidCommand(argv[0]))
  {
    FlagBeforeMatchIsInvalid(commands, argv, 0, r);
  }

  /** Without options and without any registered prefix the lookup fails as unknown. */
  lemma NoPrefixIsUnknown(commands: map<string, Loader>, argv: seq<string>, r: Result<Match, CommandError>)
    requires forall j :: 0 <= j < |argv| ==> !IsFlag(argv[j])
    requires forall j :: 0 < j <= |argv| ==> NameOf(argv[..j]) !in commands
    requires Resolves(commands, argv, r)
    ensures r == Err(UnknownCommand(argv))
  {
    assert ScanClear(commands, argv, |argv|) by {
      forall j | 0 <= j < |argv| ensures !IsFlag(argv[j]) && NameOf(argv[..j + 1]) !in commands {
        assert 0 < j + 1 <= |argv|;
      }
    }
    ResolvesDeterministic(commands, argv, r, Err(UnknownCommand(argv)));
  }

  /** With nothing registered every option-free argument list is unknown, the empty one included. */
  lemma EmptyRegistryIsUnknown(argv: seq<string>, r: Result<Match, CommandError>)
    requires forall j :: 0 <= j < |argv| ==> !IsFlag(argv[j])
    requires Resolves(map[], argv, r)
    ensures r == Err(UnknownCommand(argv))
  {
    NoPrefixIsUnknown(map[], argv, r);
  }

  lemma EmptyArgvIsUnknown(commands: map<string, Loader>, r: Result<Match, CommandError>)
    requires Resolves(commands, [], r)
    ensures r == Err(UnknownCommand([]))
  {
    NoPrefixIsUnknown(commands, [], r);
  }

  /** With both "foo" and "foo bar" registered, "foo bar x" resolves to "foo". */
  lemma ShorterNameShadowsLonger(commands: map<string, Loader>, r: Result<Match, CommandError>)
    requires "foo" in commands && "foo bar" in commands
    requires Resolves(commands, ["foo", "bar", "x"], r)
    ensures r == Ok(Match(commands["foo"].Load(), "foo", ["bar", "x"]))
  {
    var argv := ["foo", "bar", "x"];
    assert argv[..1] == [] + ["foo"];
    NameOfSnoc([], "foo");
    NotFlag("foo");
    FirstMatchWins(commands, argv, 1, r);
  }

  /** Options after the matched name are handed back untouched. */
  lemma TrailingFlagIsKept(commands: map<string, Loader>, r: Result<Match, CommandError>)
    requires "a b c" in commands && "a" !in commands && "a b" !in commands
    requires Resolves(commands, ["a", "b", "c", "--flag"], r)
    ensures r == Ok(Match(commands["a b c"].Load(), "a b c", ["--flag"]))
  {
    var argv := ["a", "b", "c", "--flag"];
    assert argv[..1] == [] + ["a"];
    assert argv[..2] == argv[..1] + ["b"];
    assert argv[..3] == argv[..2] + ["c"];
    NameOfSnoc([], "a");
    NameOfSnoc(argv[..1], "b");
    NameOfSnoc(argv[..2], "c");
    NotFlag("a");
    NotFlag("b");
    NotFlag("c");
    assert NameOf(argv[..3]) == "a b c";
    assert ScanClear(commands, argv, 2) by {
      forall j | 0 <= j < 2 ensures !IsFlag(argv[j]) && NameOf(argv[..j + 1]) !in commands {
        if j == 0 { assert NameOf(argv[..1]) == "a"; } else { assert NameOf(argv[..2]) == "a b"; }
      }
    }
    FirstMatchWins(commands, argv, 3, r);
  }

  /** `CommandManager`: the dictionary `commands` from canonical name to loader. */
  class CommandManager {
    var commands: map<string, Loader>
    const namespace: string
    const convertUnderscores: bool

    /**
     * `__init__` followed by `_load_commands`; `entryPoints` is what the
     * host's entry-point index lists under `namespace`, in its order.
     */
    constructor (namespace: string, convertUnderscores: bool, entryPoints: seq<EntryPoint>)
      ensures this.namespace == namespace && this.convertUnderscores == convertUnderscores
      ensures commands == Registered(map[], entryPoints, convertUnderscores)
    {
      this.namespace := namespace;
      this.convertUnderscores := convertUnderscores;
      commands := map[];
      new;
      LoadCommands(entryPoints);
    }

    /** `_load_commands`: stores each entry point under its canonical name. */
    method LoadCommands(entryPoints: seq<EntryPoint>)
      modifies this
      ensures commands == Registered(old(commands), entryPoints, convertUnderscores)
    {
      ghost var initial := commands;
      for i := 0 to |entryPoints|
        invariant commands == Registered(initial, entryPoints[..i], convertUnderscores)
      {
        var ep := entryPoints[i];
        var name := CanonicalName(ep.name, convertUnderscores);
        commands := commands[name := Deferred(ep)];
        assert entryPoints[..i + 1][..i] == entryPoints[..i];
      }
      assert entryPoints[..|entryPoints|] == entryPoints;
    }

    /** `add_command`: stores `commandClass` under `name` verbatim, replacing any earlier entry. */
    method AddCommand(name: string, commandClass: CommandClass)
      modifies this
      ensures commands == old(commands)[name := Wrapper(name, commandClass)]
      ensures commands[name].Load() == commandClass
      ensures forall k :: k != name ==> (k in commands <==> k in old(commands))
      ensures forall k :: k != name && k in commands ==> commands[k] == old(commands)[k]
    {
      commands := commands[name := Wrapper(name, commandClass)];
    }

    /**
     * `__iter__`: every `(name, loader)` pair of the dictionary exactly
     * once, in an order the model leaves open.
     */
    method Items() returns (items: seq<(string, Loader)>)
      ensures |items| == |commands|
      ensures forall i :: 0 <= i < |items| ==> items[i].0 in commands && items[i].1 == commands[items[i].0]
      ensures forall name :: name in commands ==> (name, commands[name]) in items
      ensures forall i, j :: 0 <= i < j < |items| ==> items[i].0 != items[j].0
    {
      items := [];
      var left := commands.Keys;
      while left != {}
        invariant left <= commands.Keys
        invariant |items| + |left| == |commands|
        invariant forall i :: 0 <= i < |items| ==>
          items[i].0 in commands && items[i].0 !in left && items[i].1 == commands[items[i].0]
        invariant forall name :: name in commands && name !in left ==> (name, commands[name]) in items
        invariant forall i, j :: 0 <= i < j < |items| ==> items[i].0 != items[j].0
        decreases |left|
      {
        var name :| name in left;
        items := items + [(name, commands[name])];
        left := left - {name};
      }
    }

    /**
     * `find_command`: consumes `argv` token by token, building the
     * space-joined name, and stops at the first registered name, at the
     * first option token, or when the tokens run out. The registry is not
     * changed (no `modifies` clause) and `argv` is a value, so the
     * caller's list is not changed either.
     */
    method FindCommand(argv: seq<string>) returns (r: Result<Match, CommandError>)
      ensures Resolves(commands, argv, r)
    {
      var searchArgs := argv;
      var name := "";
      ghost var consumed := 0;
      while searchArgs != []
        invariant consumed <= |argv|
        invariant searchArgs == argv[consumed..]
        invariant name == NameOf(argv[..consumed])
        invariant ScanClear(commands, argv, consumed)
        decreases |searchArgs|
      {
        if IsFlag(searchArgs[0]) {
          return Err(InvalidCommand(searchArgs[0]));
        }
        var nextVal := searchArgs[0];
        searchArgs := searchArgs[1..];
        ghost var k := consumed;
        assert nextVal == argv[k] && !IsFlag(argv[k]);
        assert argv[..k + 1] == argv[..k] + [nextVal];
        NameOfSnoc(argv[..k], nextVal);
        name := Extend(name, nextVal);
        consumed := consumed + 1;
        assert name == NameOf(argv[..consumed]);
        if name in commands {
          r := Ok(Match(commands[name].Load(), name, searchArgs));
          assert |argv| - |searchArgs| == consumed && ScanClear(commands, argv, consumed - 1);
          return;
        }
        assert ScanClear(commands, argv, consumed) by {
          forall j | 0 <= j < consumed ensures !IsFlag(argv[j]) && NameOf(argv[..j + 1]) !in commands {
            if j == k {
              assert NameOf(argv[..j + 1]) == name;
            }
          }
        }
      }
      r := Err(UnknownCommand(argv));
    }
  }

  /** `add_command` twice under one name: only the second class is reachable. */
  lemma AddCommandOverwrites(commands: map<string, Loader>, name: string, first: CommandClass, second: CommandClass)
    ensures commands[name := Wrapper(name, first)][name := Wrapper(name, second)][name].Load() == second
    ensures commands[name := Wrapper(name, first)][name := Wrapper(name, second)] == commands[name := Wrapper(name, second)]
  {
  }

  /** The demo application's `two_part` entry point is stored as "two part" unless conversion is off. */
  lemma TwoPartName()
    ensures CanonicalName("two_part", true) == "two part"
    ensures CanonicalName("two_part", false) == "two_part"
  {
    var n := CanonicalName("two_part", true);
    assert |n| == 8;
    assert n == "two part";
  }
}
