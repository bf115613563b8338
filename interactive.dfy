/**
 * The interactive shell of cliff/interactive.py without its terminal
 * plumbing: the plugin and builtin name lists behind `help` and tab
 * completion, the choice `do_help` makes, and the forwarding of lines to
 * the parent application.
 */
module Interactive {
  import opened Text
  import opened Ordering
  import opened Registry

  /** A name `cmd.Cmd` shows as a shell command: `do_…` but not `do__…`. */
  predicate IsBuiltinName(attribute: string) {
    StartsWith(attribute, "do_") && !StartsWith(attribute, "do__")
  }

  /** The builtin filter of `get_names`, applied to the class's attribute names. */
  function BuiltinNames(attributes: seq<string>): (r: seq<string>)
    ensures forall n :: n in r <==> n in attributes && IsBuiltinName(n)
    ensures forall n :: multiset(r)[n] == if IsBuiltinName(n) then multiset(attributes)[n] else 0
    decreases |attributes|
  {
    if attributes == [] then []
    else
      assert attributes == [attributes[0]] + attributes[1..];
      (if IsBuiltinName(attributes[0]) then [attributes[0]] else []) + BuiltinNames(attributes[1..])
  }

  /** `[n for n in names if n.startswith(text)]`. */
  function WithPrefix(names: seq<string>, text: string): (r: seq<string>)
    ensures forall n :: n in r <==> n in names && StartsWith(n, text)
    ensures forall n :: multiset(r)[n] == if StartsWith(n, text) then multiset(names)[n] else 0
    decreases |names|
  {
    if names == [] then []
    else
      assert names == [names[0]] + names[1..];
      (if StartsWith(names[0], text) then [names[0]] else []) + WithPrefix(names[1..], text)
  }

  /** Filtering keeps the relative order, so a sorted list stays sorted. */
  lemma {:induction false} WithPrefixSorted(names: seq<string>, text: string)
    requires Sorted(names)
    ensures Sorted(WithPrefix(names, text))
    decreases |names|
  {
    if names != [] {
      WithPrefixSorted(names[1..], text);
      var rest := WithPrefix(names[1..], text);
      if StartsWith(names[0], text) {
        assert Above(names[0], rest) by {
          forall y | y in rest ensures LessEq(names[0], y) {
            var j :| 0 <= j < |names[1..]| && names[1..][j] == y;
            assert names[j + 1] == y;
          }
        }
        SortedCons(names[0], rest);
      }
    }
  }

  /** Every string starts with the empty prefix, so `if text:` only saves work. */
  lemma {:induction false} WithEmptyPrefix(names: seq<string>)
    ensures WithPrefix(names, "") == names
    decreases |names|
  {
    if names != [] {
      assert StartsWith(names[0], "");
      WithEmptyPrefix(names[1..]);
      assert names == [names[0]] + names[1..];
    }
  }

  /** `n[3:] if n.startswith('do_') else n`: the name completion offers. */
  function CompletionName(n: string): (c: string)
    ensures StartsWith(n, "do_") ==> n == "do_" + c
    ensures !StartsWith(n, "do_") ==> c == n
  {
    if StartsWith(n, "do_") then n[3..] else n
  }

  function CompletionNames(names: seq<string>): (r: seq<string>)
    ensures |r| == |names|
    ensures forall i :: 0 <= i < |names| ==> r[i] == CompletionName(names[i])
    decreases |names|
  {
    if names == [] then [] else [CompletionName(names[0])] + CompletionNames(names[1..])
  }

  /**
   * `itertools.takewhile(lambda x: not x.startswith('-'), parts)`: the
   * longest prefix of `parts` without an option token.
   */
  function LeadingWords(parts: seq<string>): (r: seq<string>)
    ensures |r| <= |parts| && r == parts[..|r|]
    ensures forall i :: 0 <= i < |r| ==> !IsFlag(r[i])
    ensures |r| < |parts| ==> IsFlag(parts[|r|])
    decreases |parts|
  {
    if parts == [] || IsFlag(parts[0]) then []
    else
      assert parts == [parts[0]] + parts[1..];
      [parts[0]] + LeadingWords(parts[1..])
  }

  /** `'_'.join(['do'] + words)` with `'do'` already emitted: `_w` for each word. */
  function UnderscoreSuffix(words: seq<string>): string
    decreases |words|
  {
    if words == [] then "" else "_" + words[0] + UnderscoreSuffix(words[1..])
  }

  /** The attribute `do_help` looks for: "do" joined by `_` with the leading non-option tokens. */
  function HelpMethodName(parts: seq<string>): (name: string)
    ensures StartsWith(name, "do")
    ensures (forall i :: 0 <= i < |parts| ==> !IsFlag(parts[i])) ==> name == "do" + UnderscoreSuffix(parts)
    ensures parts == [] || IsFlag(parts[0]) ==> name == "do"
  {
    var words := LeadingWords(parts);
    assert |words| == |parts| ==> words == parts[..|parts|] == parts;
    "do" + UnderscoreSuffix(words)
  }

  /** Tokens from the first option on do not affect the help lookup. */
  lemma {:induction false} HelpMethodNameStopsAtFlag(words: seq<string>, flag: string, rest: seq<string>)
    requires forall i :: 0 <= i < |words| ==> !IsFlag(words[i])
    requires IsFlag(flag)
    ensures LeadingWords(words + [flag] + rest) == words
    ensures HelpMethodName(words + [flag] + rest) == "do" + UnderscoreSuffix(words)
    decreases |words|
  {
    if words == [] {
      assert ([] + [flag] + rest)[0] == flag;
    } else {
      assert (words + [flag] + rest)[1..] == words[1..] + [flag] + rest;
      HelpMethodNameStopsAtFlag(words[1..], flag, rest);
    }
  }

  /** `help foo bar -x baz` looks for `do_foo_bar`. */
  lemma HelpMethodNameExample()
    ensures HelpMethodName(["foo", "bar", "-x", "baz"]) == "do_foo_bar"
  {
    NotFlag("foo");
    NotFlag("bar");
    assert ["foo", "bar", "-x", "baz"] == ["foo", "bar"] + ["-x"] + ["baz"];
    assert "-x"[..1] == "-";
    HelpMethodNameStopsAtFlag(["foo", "bar"], "-x", ["baz"]);
  }

  /** What `do_help` shows, besides what it forwards. */
  datatype HelpAction =
    | /** `cmd.Cmd.do_help(self, arg)` for a builtin topic. */
      BuiltinHelp(topic: string)
    | /** `help <arg>` was forwarded to the parent application. */
      Forwarded
    | /** `help` alone: the builtin overview, then the application commands. */
      Overview(applicationCommands: seq<string>)

  /**
   * `InteractiveApp`. The parent application appears as its `NAME` and as
   * the log `dispatched` of the token lists it was asked to run; the
   * attribute names of the class stand for `hasattr` and `cmd.Cmd.get_names`;
   * `split` is the `shlex.split` tokenizer.
   */
  class InteractiveApp {
    const parentName: string
    const commandManager: CommandManager
    const attributes: seq<string>
    const split: string -> seq<string>
    const prompt: string
    ghost var dispatched: seq<seq<string>>

    constructor (parentName: string, commandManager: CommandManager,
                 attributes: seq<string>, split: string -> seq<string>)
      ensures this.parentName == parentName && this.commandManager == commandManager
      ensures this.attributes == attributes && this.split == split
      ensures prompt == "(" + parentName + ") "
      ensures dispatched == []
    {
      this.parentName := parentName;
      this.commandManager := commandManager;
      this.attributes := attributes;
      this.split := split;
      prompt := "(" + parentName + ") ";
      dispatched := [];
    }

    /** `default`: hands the split line to `parent_app.run_subcommand`, once and unchanged. */
    method Default(line: string)
      modifies this
      ensures dispatched == old(dispatched) + [split(line)]
    {
      dispatched := dispatched + [split(line)];
    }

    /** `help_help`: the help for `help` comes from the application's own `help` command. */
    method HelpHelp()
      modifies this
      ensures dispatched == old(dispatched) + [split("help help")]
    {
      Default("help help");
    }

    /** `_plugin_command_names`: the registry's names except "help", sorted. */
    function PluginCommandNames(): (r: seq<string>)
      reads this, commandManager
      ensures "help" !in r
      ensures forall n :: n in r <==> n in commandManager.commands && n != "help"
      ensures StrictlySorted(r)
    {
      SortedSet(commandManager.commands.Keys - {"help"})
    }

    /** `get_names`: plugin names and visible builtins, sorted together. */
    function GetNames(): (r: seq<string>)
      reads this, commandManager
      ensures Sorted(r)
      ensures multiset(r) == multiset(PluginCommandNames()) + multiset(BuiltinNames(attributes))
    {
      Sort(PluginCommandNames() + BuiltinNames(attributes))
    }

    /** `completedefault`: all names for an empty text, else those starting with it. */
    function CompleteDefault(text: string): (r: seq<string>)
      reads this, commandManager
      ensures text == "" ==> r == GetNames()
      ensures Sorted(r)
      ensures forall n :: n in r <==> n in GetNames() && StartsWith(n, text)
    {
      WithPrefixSorted(GetNames(), text);
      if text != "" then WithPrefix(GetNames(), text) else GetNames()
    }

    /** `completenames`: names with `do_` stripped, kept when they start with `text`. */
    function CompleteNames(text: string): (r: seq<string>)
      reads this, commandManager
      ensures forall n :: n in r ==> StartsWith(n, text)
      ensures forall n :: n in r <==> n in CompletionNames(GetNames()) && StartsWith(n, text)
    {
      WithPrefix(CompletionNames(GetNames()), text)
    }

    /**
     * `do_help`. A builtin topic goes to `cmd.Cmd.do_help`, which calls the
     * `help_<topic>` method when there is one; the only such method of this
     * class is `help_help`, which forwards "help help".
     */
    method DoHelp(arg: string) returns (action: HelpAction)
      modifies this
      ensures arg == "" ==> action == Overview(PluginCommandNames()) && dispatched == old(dispatched)
      ensures arg != "" && HelpMethodName(split(arg)) in attributes ==>
        && action == BuiltinHelp(arg)
        && dispatched == old(dispatched) +
             (if arg == "help" && "help_help" in attributes then [split("help help")] else [])
      ensures arg != "" && HelpMethodName(split(arg)) !in attributes ==>
        action == Forwarded && dispatched == old(dispatched) + [split("help " + arg)]
    {
      if arg != "" {
        var argParts := split(arg);
        var methodName := HelpMethodName(argParts);
        if methodName in attributes {
          if arg == "help" && "help_help" in attributes {
            HelpHelp();
          }
          return BuiltinHelp(arg);
        }
        Default("help " + arg);
        action := Forwarded;
      } else {
        action := Overview(PluginCommandNames());
      }
    }

    /** `do_EOF`: returning true ends the command loop. */
    method DoEOF(line: string) returns (stop: bool)
      ensures stop
    {
      stop := true;
    }

    /** Each name `get_names` lists is a registry name other than "help" or a visible builtin. */
    lemma GetNamesMembers(n: string)
      ensures n in GetNames() <==>
        (n in commandManager.commands && n != "help") || (n in attributes && IsBuiltinName(n))
    {
      var names := GetNames();
      assert n in names <==> n in multiset(names);
    }

    /** Completing a prefix is filtering `get_names` by it, whether or not the prefix is empty. */
    lemma CompleteDefaultIsFilter(text: string)
      ensures CompleteDefault(text) == WithPrefix(GetNames(), text)
    {
      if text == "" {
        WithEmptyPrefix(GetNames());
      }
    }

    /** A visible builtin is offered by `completenames` without its `do_` prefix. */
    lemma BuiltinCompleted(builtin: string, text: string)
      requires builtin in attributes && IsBuiltinName(builtin)
      requires StartsWith(builtin[3..], text)
      ensures builtin[3..] in CompleteNames(text)
    {
      GetNamesMembers(builtin);
      var names := GetNames();
      var i :| 0 <= i < |names| && names[i] == builtin;
      assert CompletionNames(names)[i] == builtin[3..];
    }

    /** A plugin name without the `do_` prefix is offered verbatim when it starts with `text`. */
    lemma PluginCompleted(name: string, text: string)
      requires name in commandManager.commands && name != "help"
      requires !StartsWith(name, "do_") && StartsWith(name, text)
      ensures name in CompleteNames(text)
    {
      GetNamesMembers(name);
      var names := GetNames();
      var i :| 0 <= i < |names| && names[i] == name;
      assert CompletionNames(names)[i] == name;
    }
  }
}
