/**
 * `parseargs`: option names are popped from the argument list together with
 * the token after them, flag names are popped on their own, and what is left
 * must be at most one token, the URL.
 *
 * The source iterates two Python 2 dicts (`args` and `flags`), whose order
 * is unspecified; this model fixes the order in which they are written.
 * The order matters only for odd command lines, where the value taken by
 * one option is itself the name of another.
 */
module Cli {
  import opened Wrappers
  import opened Sequences

  /** A value of the `params` dict: the string an option took, or `True` for a flag. */
  datatype Param = Text(value: string) | Enabled

  /**
   * What `parseargs` gives back: None (the caller prints the usage), the
   * IndexError raised when an option name is the last token, or the dict.
   */
  datatype Parsed = Usage | MissingValue(name: string) | Params(params: map<string, Param>)

  /** The `args` dict: each option's key and the names that set it. */
  const Options: seq<(string, seq<string>)> := [
    ("matchType", ["--matchType", "-m"]),
    ("from", ["--from", "-f"]),
    ("to", ["--to", "-t"]),
    ("limit", ["--limit", "-l"])
  ]

  /** The `flags` dict: each flag's key and the names that set it. */
  const Flags: seq<(string, seq<string>)> := [
    ("help", ["--help", "-h"]),
    ("dry", ["--dry", "-d"])
  ]

  const OptionKeys: set<string> := {"matchType", "from", "to", "limit"}
  const FlagKeys: set<string> := {"help", "dry"}

  /** The argument list and the dict part-way through parsing. */
  datatype State = State(argv: seq<string>, params: map<string, Param>)

  /** Where the options loop stands: still going, or stopped by an option with no value. */
  datatype Step = Going(st: State) | Stuck(name: string)

  /** The effect of `index = argv.index(name); argv.pop(index); value = argv.pop(index)`. */
  datatype Take = Absent | NoValue | Taken(rest: seq<string>, value: string)

  /**
   * Taking an option out of the list: nothing happens when its name is
   * absent; otherwise the first occurrence of the name and the token after
   * it come out, and putting them back where they were gives the list again.
   */
  function TakeOption(argv: seq<string>, name: string): (t: Take)
    ensures t.Absent? <==> name !in argv
    ensures t.NoValue? <==> name in argv && IndexOf(argv, name) == |argv| - 1
    ensures t.Taken? ==>
      var i := IndexOf(argv, name);
      && i <= |t.rest|
      && argv == t.rest[..i] + [name, t.value] + t.rest[i..]
  {
    if name !in argv then Absent
    else
      var i := IndexOf(argv, name);
      if i == |argv| - 1 then NoValue
      else
        var rest := argv[..i] + argv[i + 2..];
        assert rest[..i] == argv[..i] && rest[i..] == argv[i + 2..];
        assert argv == argv[..i] + [name, argv[i + 1]] + argv[i + 2..];
        Taken(rest, argv[i + 1])
  }

  /** Popping the name and then the token that moved into its place is `TakeOption`. */
  lemma TakeByPops(argv: seq<string>, name: string)
    requires name in argv
    ensures
      var i := IndexOf(argv, name);
      var once := Pop(argv, i);
      && (i == |once| ==> TakeOption(argv, name) == NoValue)
      && (i < |once| ==> TakeOption(argv, name) == Taken(Pop(once, i), once[i]))
  {
    var i := IndexOf(argv, name);
    var once := Pop(argv, i);
    if i < |once| {
      assert once[i] == argv[i + 1];
      assert Pop(once, i) == argv[..i] + argv[i + 2..];
    }
  }

  /** The inner loop `for name in names` of the options loop, for the option `key`. */
  function OptionNames(st: State, key: string, names: seq<string>): Step
    decreases |names|
  {
    if names == [] then Going(st)
    else
      match TakeOption(st.argv, names[0])
      case Absent => OptionNames(st, key, names[1..])
      case NoValue => Stuck(names[0])
      case Taken(rest, value) => OptionNames(State(rest, st.params[key := Text(value)]), key, names[1..])
  }

  /** The options loop `for arg, names in args.iteritems()`. */
  function OptionsLoop(st: State, options: seq<(string, seq<string>)>): Step
    decreases |options|, 0
  {
    if options == [] then Going(st)
    else Then(OptionNames(st, options[0].0, options[0].1), options[1..])
  }

  /** Carries on with the remaining options unless the loop has stopped. */
  function Then(step: Step, options: seq<(string, seq<string>)>): Step
    decreases |options|, 1
  {
    match step
    case Stuck(name) => Stuck(name)
    case Going(st) => OptionsLoop(st, options)
  }

  /** The inner loop `for name in names` of the flags loop, for the flag `key`. */
  function FlagNames(st: State, key: string, names: seq<string>): State
    decreases |names|
  {
    if names == [] then st
    else if names[0] in st.argv then
      FlagNames(State(Pop(st.argv, IndexOf(st.argv, names[0])), st.params[key := Enabled]), key, names[1..])
    else FlagNames(st, key, names[1..])
  }

  /** The flags loop `for flag, names in flags.iteritems()`. */
  function FlagsLoop(st: State, flags: seq<(string, seq<string>)>): State
    decreases |flags|
  {
    if flags == [] then st
    else FlagsLoop(FlagNames(st, flags[0].0, flags[0].1), flags[1..])
  }

  /** Both loops, from the full argument list and an empty dict. */
  function Removals(argv: seq<string>): Step {
    match OptionsLoop(State(argv, map[]), Options)
    case Stuck(name) => Stuck(name)
    case Going(st) => Going(FlagsLoop(st, Flags))
  }

  /**
   * The inner loop for one option as the source runs it: each name found is
   * popped, then the token that has moved into its place is popped as the value.
   */
  method PopOptionNames(st: State, key: string, names: seq<string>) returns (step: Step)
    ensures step == OptionNames(st, key, names)
  {
    var rest, params := st.argv, st.params;
    for n := 0 to |names|
      invariant OptionNames(st, key, names) == OptionNames(State(rest, params), key, names[n..])
    {
      var name := names[n];
      assert names[n..][0] == name && names[n..][1..] == names[n + 1..];
      if name in rest {
        TakeByPops(rest, name);
        var index := IndexOf(rest, name);
        rest := Pop(rest, index);
        if index == |rest| {
          return Stuck(name);
        }
        var value := rest[index];
        rest := Pop(rest, index);
        params := params[key := Text(value)];
      }
    }
    return Going(State(rest, params));
  }

  /** The options loop `for arg, names in args.iteritems()` as the source runs it. */
  method PopOptions(argv: seq<string>, options: seq<(string, seq<string>)>) returns (step: Step)
    ensures step == OptionsLoop(State(argv, map[]), options)
  {
    var st := State(argv, map[]);
    for o := 0 to |options|
      invariant OptionsLoop(State(argv, map[]), options) == OptionsLoop(st, options[o..])
    {
      assert options[o..][0] == options[o] && options[o..][1..] == options[o + 1..];
      var next := PopOptionNames(st, options[o].0, options[o].1);
      if next.Stuck? {
        return next;
      }
      st := next.st;
    }
    return Going(st);
  }

  /** The inner loop for one flag as the source runs it: each name found is popped. */
  method PopFlagNames(st: State, key: string, names: seq<string>) returns (left: State)
    ensures left == FlagNames(st, key, names)
  {
    var rest, params := st.argv, st.params;
    for n := 0 to |names|
      invariant FlagNames(st, key, names) == FlagNames(State(rest, params), key, names[n..])
    {
      var name := names[n];
      assert names[n..][0] == name && names[n..][1..] == names[n + 1..];
      if name in rest {
        var index := IndexOf(rest, name);
        rest := Pop(rest, index);
        params := params[key := Enabled];
      }
    }
    return State(rest, params);
  }

  /** The flags loop `for flag, names in flags.iteritems()` as the source runs it. */
  method PopFlags(st: State, flags: seq<(string, seq<string>)>) returns (left: State)
    ensures left == FlagsLoop(st, flags)
  {
    left := st;
    for f := 0 to |flags|
      invariant FlagsLoop(st, flags) == FlagsLoop(left, flags[f..])
    {
      assert flags[f..][0] == flags[f] && flags[f..][1..] == flags[f + 1..];
      left := PopFlagNames(left, flags[f].0, flags[f].1);
    }
  }

  /**
   * What `parseargs(argv)` returns: an empty command line is a usage error;
   * otherwise both loops run and at most one token may be left, which
   * becomes the URL.
   */
  function Parse(argv: seq<string>): Parsed {
    if argv == [] then Usage
    else
      match Removals(argv)
      case Stuck(name) => MissingValue(name)
      case Going(left) =>
        if |left.argv| > 1 then Usage
        else if left.argv == [] then Params(left.params)
        else Params(left.params["url" := Text(left.argv[0])])
  }

  /** `parseargs(argv)` as the source runs it, popping from the list. */
  method ParseArgs(argv: seq<string>) returns (result: Parsed)
    ensures result == Parse(argv)
    ensures argv == [] ==> result == Usage
    ensures argv != [] && Removals(argv).Stuck? ==> result == MissingValue(Removals(argv).name)
    ensures argv != [] && Removals(argv).Going? ==>
      var left := Removals(argv).st;
      && (|left.argv| > 1 ==> result == Usage)
      && (|left.argv| == 1 ==> result == Params(left.params["url" := Text(left.argv[0])]))
      && (left.argv == [] ==> result == Params(left.params))
  {
    if argv == [] {
      return Usage;
    }
    var step := PopOptions(argv, Options);
    if step.Stuck? {
      return MissingValue(step.name);
    }
    var left := PopFlags(step.st, Flags);
    var rest, params := left.argv, left.params;
    if |rest| > 1 {
      return Usage;
    }
    if rest != [] {
      params := params["url" := Text(rest[|rest| - 1])];
      rest := rest[..|rest| - 1];
    }
    return Params(params);
  }

  /**
   * What the loops keep: the list is the original with tokens deleted and
   * the order of the others kept; only recognised keys are set, options to
   * a token of the command line and flags to True.
   */
  ghost predicate Consistent(st: State, argv: seq<string>) {
    IsSubsequence(st.argv, argv) && KnownParams(st.params, argv)
  }

  /** Only recognised keys are set, options to a token of `argv` and flags to True. */
  ghost predicate KnownParams(params: map<string, Param>, argv: seq<string>) {
    forall k :: k in params ==>
      || (k in OptionKeys && params[k].Text? && params[k].value in argv)
      || (k in FlagKeys && params[k] == Enabled)
  }

  lemma SetOption(params: map<string, Param>, argv: seq<string>, key: string, value: string)
    requires KnownParams(params, argv) && key in OptionKeys && value in argv
    ensures KnownParams(params[key := Text(value)], argv)
  {
  }

  lemma SetFlag(params: map<string, Param>, argv: seq<string>, key: string)
    requires KnownParams(params, argv) && key in FlagKeys
    ensures KnownParams(params[key := Enabled], argv)
  {
  }

  /** The keys of the two dicts are the recognised option and flag keys. */
  lemma DictKeys()
    ensures forall i :: 0 <= i < |Options| ==> Options[i].0 in OptionKeys
    ensures forall i :: 0 <= i < |Flags| ==> Flags[i].0 in FlagKeys
  {
  }

  lemma {:induction false} SubsequenceMembers(a: seq<string>, b: seq<string>, x: string)
    requires IsSubsequence(a, b) && x in a
    ensures x in b
    decreases |b|
  {
    if a[0] == b[0] && IsSubsequence(a[1..], b[1..]) {
      if x != a[0] {
        assert x in a[1..];
        SubsequenceMembers(a[1..], b[1..], x);
      }
    } else {
      SubsequenceMembers(a, b[1..], x);
    }
  }

  lemma TakeOptionConsistent(st: State, argv: seq<string>, name: string, key: string)
    requires Consistent(st, argv) && key in OptionKeys && TakeOption(st.argv, name).Taken?
    ensures var t := TakeOption(st.argv, name); Consistent(State(t.rest, st.params[key := Text(t.value)]), argv)
  {
    TakeByPops(st.argv, name);
    var i := IndexOf(st.argv, name);
    var once := Pop(st.argv, i);
    PopIsSubsequence(st.argv, i);
    PopIsSubsequence(once, i);
    SubsequenceTransitive(once, st.argv, argv);
    SubsequenceTransitive(Pop(once, i), once, argv);
    SubsequenceMembers(once, argv, once[i]);
    SetOption(st.params, argv, key, once[i]);
  }

  lemma {:induction false} OptionNamesConsistent(st: State, key: string, names: seq<string>, argv: seq<string>)
    requires Consistent(st, argv) && key in OptionKeys
    ensures OptionNames(st, key, names).Going? ==> Consistent(OptionNames(st, key, names).st, argv)
    decreases |names|
  {
    if names != [] {
      var t := TakeOption(st.argv, names[0]);
      if t.Taken? {
        TakeOptionConsistent(st, argv, names[0], key);
        OptionNamesConsistent(State(t.rest, st.params[key := Text(t.value)]), key, names[1..], argv);
      } else if t.Absent? {
        OptionNamesConsistent(st, key, names[1..], argv);
      }
    }
  }

  lemma {:induction false} OptionsLoopConsistent(st: State, options: seq<(string, seq<string>)>, argv: seq<string>)
    requires Consistent(st, argv)
    requires forall i :: 0 <= i < |options| ==> options[i].0 in OptionKeys
    ensures OptionsLoop(st, options).Going? ==> Consistent(OptionsLoop(st, options).st, argv)
    decreases |options|
  {
    if options != [] {
      var step := OptionNames(st, options[0].0, options[0].1);
      OptionNamesConsistent(st, options[0].0, options[0].1, argv);
      if step.Going? {
        OptionsLoopConsistent(step.st, options[1..], argv);
      }
    }
  }

  lemma {:induction false} FlagNamesConsistent(st: State, key: string, names: seq<string>, argv: seq<string>)
    requires Consistent(st, argv) && key in FlagKeys
    ensures Consistent(FlagNames(st, key, names), argv)
    decreases |names|
  {
    if names != [] {
      if names[0] in st.argv {
        var i := IndexOf(st.argv, names[0]);
        PopIsSubsequence(st.argv, i);
        SubsequenceTransitive(Pop(st.argv, i), st.argv, argv);
        SetFlag(st.params, argv, key);
        FlagNamesConsistent(State(Pop(st.argv, i), st.params[key := Enabled]), key, names[1..], argv);
      } else {
        FlagNamesConsistent(st, key, names[1..], argv);
      }
    }
  }

  lemma {:induction false} FlagsLoopConsistent(st: State, flags: seq<(string, seq<string>)>, argv: seq<string>)
    requires Consistent(st, argv)
    requires forall i :: 0 <= i < |flags| ==> flags[i].0 in FlagKeys
    ensures Consistent(FlagsLoop(st, flags), argv)
    decreases |flags|
  {
    if flags != [] {
      FlagNamesConsistent(st, flags[0].0, flags[0].1, argv);
      FlagsLoopConsistent(FlagNames(st, flags[0].0, flags[0].1), flags[1..], argv);
    }
  }

  /**
   * After both loops the leftover tokens are the command line with some
   * tokens deleted, in their original order; only the six recognised keys
   * are set, each option to a token of the command line, each flag to True.
   */
  lemma RemovalsConsistent(argv: seq<string>)
    ensures Removals(argv).Going? ==>
      IsSubsequence(Removals(argv).st.argv, argv) && KnownParams(Removals(argv).st.params, argv)
  {
    SubsequenceReflexive(argv);
    DictKeys();
    OptionsLoopConsistent(State(argv, map[]), Options, argv);
    var step := OptionsLoop(State(argv, map[]), Options);
    if step.Going? {
      FlagsLoopConsistent(step.st, Flags, argv);
    }
  }

  /** The names `parseargs` recognises: those of the options and those of the flags. */
  const OptionNameSet: set<string> := {"--matchType", "-m", "--from", "-f", "--to", "-t", "--limit", "-l"}
  const FlagNameSet: set<string> := {"--help", "-h", "--dry", "-d"}
  const Names: set<string> := OptionNameSet + FlagNameSet

  lemma DictNames()
    ensures forall i, j :: 0 <= i < |Options| && 0 <= j < |Options[i].1| ==> Options[i].1[j] in Names
    ensures forall i, j :: 0 <= i < |Flags| && 0 <= j < |Flags[i].1| ==> Flags[i].1[j] in Names
  {
  }

  /** The option names are the names of the `args` dict, the flag names those of `flags`. */
  lemma DictNameSets()
    ensures forall i, j :: 0 <= i < |Options| && 0 <= j < |Options[i].1| ==> Options[i].1[j] in OptionNameSet
    ensures forall i, j :: 0 <= i < |Flags| && 0 <= j < |Flags[i].1| ==> Flags[i].1[j] in FlagNameSet
  {
  }

  lemma {:induction false} OptionNamesAbsent(st: State, key: string, names: seq<string>)
    requires forall i :: 0 <= i < |names| ==> names[i] !in st.argv
    ensures OptionNames(st, key, names) == Going(st)
    decreases |names|
  {
    if names != [] {
      OptionNamesAbsent(st, key, names[1..]);
    }
  }

  lemma {:induction false} OptionsLoopAbsent(st: State, options: seq<(string, seq<string>)>)
    requires forall i, j :: 0 <= i < |options| && 0 <= j < |options[i].1| ==> options[i].1[j] !in st.argv
    ensures OptionsLoop(st, options) == Going(st)
    decreases |options|
  {
    if options != [] {
      OptionNamesAbsent(st, options[0].0, options[0].1);
      OptionsLoopAbsent(st, options[1..]);
    }
  }

  lemma {:induction false} FlagNamesAbsent(st: State, key: string, names: seq<string>)
    requires forall i :: 0 <= i < |names| ==> names[i] !in st.argv
    ensures FlagNames(st, key, names) == st
    decreases |names|
  {
    if names != [] {
      FlagNamesAbsent(st, key, names[1..]);
    }
  }

  lemma {:induction false} FlagsLoopAbsent(st: State, flags: seq<(string, seq<string>)>)
    requires forall i, j :: 0 <= i < |flags| && 0 <= j < |flags[i].1| ==> flags[i].1[j] !in st.argv
    ensures FlagsLoop(st, flags) == st
    decreases |flags|
  {
    if flags != [] {
      FlagNamesAbsent(st, flags[0].0, flags[0].1);
      FlagsLoopAbsent(st, flags[1..]);
    }
  }

  /**
   * A command line without any recognised name is left as it is: one token
   * becomes the URL, two or more are a usage error.
   */
  lemma NoRecognisedNames(argv: seq<string>)
    requires forall t :: t in argv ==> t !in Names
    ensures Removals(argv) == Going(State(argv, map[]))
  {
    DictNames();
    OptionsLoopAbsent(State(argv, map[]), Options);
    FlagsLoopAbsent(State(argv, map[]), Flags);
  }

  /**
   * An option whose first name opens the list and whose other names do not
   * occur in what follows is taken with the token after it.
   */
  lemma OptionFirst(argv: seq<string>, params: map<string, Param>, key: string, names: seq<string>)
    requires names != [] && 2 <= |argv| && argv[0] == names[0]
    requires forall i :: 1 <= i < |names| ==> names[i] !in argv[2..]
    ensures OptionNames(State(argv, params), key, names) == Going(State(argv[2..], params[key := Text(argv[1])]))
  {
    assert IndexOf(argv, names[0]) == 0;
    assert argv[..0] + argv[2..] == argv[2..];
    OptionNamesAbsent(State(argv[2..], params[key := Text(argv[1])]), key, names[1..]);
  }

  /** A command line that sets the four options by their long names, in the order of the dict, then gives the URL. */
  function LongOptions(matchType: string, from: string, to: string, limit: string, url: string): seq<string> {
    ["--matchType", matchType] + (["--from", from] + (["--to", to] + (["--limit", limit] + [url])))
  }

  /** The dict filled from such a command line. */
  function LongParams(matchType: string, from: string, to: string, limit: string): map<string, Param> {
    map["matchType" := Text(matchType), "from" := Text(from), "to" := Text(to), "limit" := Text(limit)]
  }

  /** Once the first option's names have been handled, the options loop goes on with the rest. */
  lemma OptionsLoopGoing(st: State, options: seq<(string, seq<string>)>, next: State)
    requires options != [] && OptionNames(st, options[0].0, options[0].1) == Going(next)
    ensures OptionsLoop(st, options) == OptionsLoop(next, options[1..])
  {
  }

  /** An option given by its first name with its value, its second name not following. */
  lemma OptionPair(key: string, name: string, other: string, value: string, tail: seq<string>, params: map<string, Param>)
    requires other !in tail
    ensures OptionNames(State([name, value] + tail, params), key, [name, other]) ==
            Going(State(tail, params[key := Text(value)]))
  {
    OptionFirst([name, value] + tail, params, key, [name, other]);
    assert ([name, value] + tail)[2..] == tail;
  }

  /** The options loop takes the four options and leaves the URL. */
  lemma LongOptionsLoop(matchType: string, from: string, to: string, limit: string, url: string)
    requires from !in Names && to !in Names && limit !in Names && url !in Names
    ensures OptionsLoop(State(LongOptions(matchType, from, to, limit, url), map[]), Options) ==
            Going(State([url], LongParams(matchType, from, to, limit)))
  {
    var a3 := [url];
    var a2 := ["--limit", limit] + a3;
    var a1 := ["--to", to] + a2;
    var a0 := ["--from", from] + a1;
    var p1 := map["matchType" := Text(matchType)];
    var p2 := p1["from" := Text(from)];
    var p3 := p2["to" := Text(to)];
    assert "-m" !in a0 && "-f" !in a1 && "-t" !in a2 && "-l" !in a3;
    OptionPair("matchType", "--matchType", "-m", matchType, a0, map[]);
    OptionPair("from", "--from", "-f", from, a1, p1);
    OptionPair("to", "--to", "-t", to, a2, p2);
    OptionPair("limit", "--limit", "-l", limit, a3, p3);
    LongChain(LongOptions(matchType, from, to, limit, url), a0, a1, a2, a3, p1, p2, p3, LongParams(matchType, from, to, limit));
  }

  /** Four options handled one after the other make the whole options loop. */
  lemma LongChain(argv: seq<string>, a0: seq<string>, a1: seq<string>, a2: seq<string>, a3: seq<string>,
                  p1: map<string, Param>, p2: map<string, Param>, p3: map<string, Param>, p4: map<string, Param>)
    requires OptionNames(State(argv, map[]), "matchType", ["--matchType", "-m"]) == Going(State(a0, p1))
    requires OptionNames(State(a0, p1), "from", ["--from", "-f"]) == Going(State(a1, p2))
    requires OptionNames(State(a1, p2), "to", ["--to", "-t"]) == Going(State(a2, p3))
    requires OptionNames(State(a2, p3), "limit", ["--limit", "-l"]) == Going(State(a3, p4))
    ensures OptionsLoop(State(argv, map[]), Options) == Going(State(a3, p4))
  {
    var o1 := [("from", ["--from", "-f"]), ("to", ["--to", "-t"]), ("limit", ["--limit", "-l"])];
    var o2 := [("to", ["--to", "-t"]), ("limit", ["--limit", "-l"])];
    var o3 := [("limit", ["--limit", "-l"])];
    assert Options[1..] == o1 && o1[1..] == o2 && o2[1..] == o3 && o3[1..] == [];
    OptionsLoopGoing(State(argv, map[]), Options, State(a0, p1));
    OptionsLoopGoing(State(a0, p1), o1, State(a1, p2));
    OptionsLoopGoing(State(a1, p2), o2, State(a2, p3));
    OptionsLoopGoing(State(a2, p3), o3, State(a3, p4));
  }

  /**
   * A command line setting the four options by their long names, then
   * giving the URL, parses to the four values and the URL, whatever the
   * values are, as long as none of them is itself a recognised name.
   */
  lemma LongParse(matchType: string, from: string, to: string, limit: string, url: string)
    requires from !in Names && to !in Names && limit !in Names && url !in Names
    ensures Parse(LongOptions(matchType, from, to, limit, url)) ==
            Params(LongParams(matchType, from, to, limit)["url" := Text(url)])
  {
    LongOptionsLoop(matchType, from, to, limit, url);
    assert url !in FlagNameSet;
    DictNameSets();
    FlagsLoopAbsent(State([url], LongParams(matchType, from, to, limit)), Flags);
  }

  /** The usage text's example: `--matchType prefix --from 2010 --to 201606 --limit 1000` and a URL. */
  lemma ParseExample(url: string)
    requires url !in Names
    ensures Parse(LongOptions("prefix", "2010", "201606", "1000", url)) ==
            Params(map["matchType" := Text("prefix"), "from" := Text("2010"), "to" := Text("201606"),
                       "limit" := Text("1000"), "url" := Text(url)])
  {
    assert "2010" !in Names && "201606" !in Names && "1000" !in Names;
    LongParse("prefix", "2010", "201606", "1000", url);
  }

  /** Every recognised name starts with a dash. */
  lemma NamesStartWithDash()
    ensures forall n :: n in Names ==> n != [] && n[0] == '-'
  {
  }

  /** The usage text's example: the host name `example.org` ends up as the url. */
  lemma ParseUsageExample()
    ensures Parse(LongOptions("prefix", "2010", "201606", "1000", "example.org")) ==
            Params(map["matchType" := Text("prefix"), "from" := Text("2010"), "to" := Text("201606"),
                       "limit" := Text("1000"), "url" := Text("example.org")])
  {
    NamesStartWithDash();
    assert "example.org"[0] == 'e';
    ParseExample("example.org");
  }

  /**
   * A command line read the way the usage text means it: every recognised
   * name occurs at most once, and every option name is followed by a token
   * that is not itself a recognised name.
   */
  ghost predicate WellFormed(argv: seq<string>) {
    && (forall i, j :: 0 <= i < j < |argv| && argv[i] in Names ==> argv[i] != argv[j])
    && (forall i :: 0 <= i < |argv| && argv[i] in OptionNameSet ==> i + 1 < |argv| && argv[i + 1] !in Names)
  }

  /** The token right after the first occurrence of `name`. */
  function Follower(argv: seq<string>, name: string): string
    requires name in argv && IndexOf(argv, name) + 1 < |argv|
  {
    argv[IndexOf(argv, name) + 1]
  }

  /** In a well-formed list a recognised name is found where it stands. */
  lemma IndexOfName(argv: seq<string>, p: nat)
    requires WellFormed(argv) && p < |argv| && argv[p] in Names
    ensures IndexOf(argv, argv[p]) == p
  {
    var q := IndexOf(argv, argv[p]);
    forall k | 0 <= k < q
      ensures argv[k] != argv[p]
    {
      assert argv[..q][k] == argv[k];
    }
  }

  /** The list with the two tokens at `i` and `i + 1` deleted. */
  function DropTwo(argv: seq<string>, i: nat): seq<string>
    requires i + 1 < |argv|
  {
    argv[..i] + argv[i + 2..]
  }

  /** Where the token at `p` of `DropTwo(argv, i)` stood in `argv`. */
  function Origin(i: nat, p: nat): nat {
    if p < i then p else p + 2
  }

  lemma DropTwoOrigin(argv: seq<string>, i: nat)
    requires i + 1 < |argv|
    ensures |DropTwo(argv, i)| == |argv| - 2
    ensures forall p :: 0 <= p < |argv| - 2 ==> DropTwo(argv, i)[p] == argv[Origin(i, p)]
  {
  }

  /** Deleting an option name and its value from a well-formed list leaves it well formed. */
  lemma DropPairWellFormed(argv: seq<string>, i: nat)
    requires WellFormed(argv) && i < |argv| && argv[i] in OptionNameSet
    ensures i + 1 < |argv| && WellFormed(DropTwo(argv, i))
    ensures forall p :: 0 <= p < |argv| - 2 && DropTwo(argv, i)[p] in OptionNameSet ==>
      DropTwo(argv, i)[p + 1] == argv[Origin(i, p) + 1]
  {
    var rest := DropTwo(argv, i);
    DropTwoOrigin(argv, i);
    forall p | 0 <= p < |rest| && rest[p] in OptionNameSet
      ensures p + 1 < |rest| && rest[p + 1] == argv[Origin(i, p) + 1] && rest[p + 1] !in Names
    {
      if p < i {
        assert argv[p + 1] !in Names;
      }
    }
  }

  /** Deleting an option name and its value from a well-formed list keeps every other option's value. */
  lemma DropPairFollowers(argv: seq<string>, i: nat)
    requires WellFormed(argv) && i < |argv| && argv[i] in OptionNameSet
    ensures i + 1 < |argv| && WellFormed(DropTwo(argv, i))
    ensures forall n :: n in OptionNameSet && n in DropTwo(argv, i) ==>
      n in argv && Follower(DropTwo(argv, i), n) == Follower(argv, n)
  {
    var rest := DropTwo(argv, i);
    DropPairWellFormed(argv, i);
    DropTwoOrigin(argv, i);
    forall n | n in OptionNameSet && n in rest
      ensures n in argv && Follower(rest, n) == Follower(argv, n)
    {
      IndexOfName(argv, Origin(i, IndexOf(rest, n)));
    }
  }

  /** Deleting an option name and its value from a well-formed list keeps every other recognised name. */
  lemma DropPairNames(argv: seq<string>, i: nat)
    requires WellFormed(argv) && i < |argv| && argv[i] in OptionNameSet
    ensures i + 1 < |argv|
    ensures forall m :: m in Names && m != argv[i] ==> (m in DropTwo(argv, i) <==> m in argv)
  {
    var rest := DropTwo(argv, i);
    DropTwoOrigin(argv, i);
    forall m | m in Names && m != argv[i] && m in argv
      ensures m in rest
    {
      var q := IndexOf(argv, m);
      assert q != i + 1;
      assert rest[if q < i then q else q - 2] == m;
    }
  }

  /**
   * `current` is what the options loop has left of the well-formed `argv`:
   * still well formed, holding no recognised name `argv` lacks, and every
   * option name in it still followed by the token that followed it in `argv`.
   */
  ghost predicate Tracks(argv: seq<string>, current: seq<string>)
    requires WellFormed(argv)
  {
    && WellFormed(current)
    && (forall n :: n in Names && n in current ==> n in argv)
    && (forall n :: n in OptionNameSet && n in current ==> Follower(current, n) == Follower(argv, n))
  }

  /** Taking an option that is present out of a tracked list takes its original value and keeps tracking. */
  lemma TakeTracks(argv: seq<string>, current: seq<string>, name: string)
    requires WellFormed(argv) && Tracks(argv, current) && name in OptionNameSet && name in current
    ensures TakeOption(current, name).Taken?
    ensures TakeOption(current, name).value == Follower(argv, name)
    ensures Tracks(argv, TakeOption(current, name).rest)
    ensures forall m :: m in Names && m != name ==> (m in TakeOption(current, name).rest <==> m in current)
  {
    var i := IndexOf(current, name);
    DropPairFollowers(current, i);
    DropPairNames(current, i);
    assert TakeOption(current, name) == Taken(DropTwo(current, i), current[i + 1]);
  }

  /** No name occurs twice in `names`. */
  ghost predicate Distinct(names: seq<string>) {
    forall i, j :: 0 <= i < j < |names| ==> names[i] != names[j]
  }

  /**
   * The value the inner options loop stores for one key: the token after the
   * last of its names that occurs, since each later name overwrites the
   * earlier; None when none occurs.
   */
  ghost function Chosen(argv: seq<string>, names: seq<string>): Option<string>
    requires WellFormed(argv)
    requires forall j :: 0 <= j < |names| ==> names[j] in OptionNameSet
    decreases |names|
  {
    if names == [] then None
    else
      var later := Chosen(argv, names[1..]);
      if later.Some? then later
      else if names[0] in argv then Some(Follower(argv, names[0]))
      else None
  }

  /** The dict with `key` set to the chosen value, when there is one. */
  function Assign(params: map<string, Param>, key: string, value: Option<string>): map<string, Param> {
    if value.Some? then params[key := Text(value.value)] else params
  }

  /** Setting a key twice leaves the second value. */
  lemma SetTwice(params: map<string, Param>, key: string, first: Param, second: Param)
    ensures params[key := first][key := second] == params[key := second]
  {
    var a, b := params[key := first][key := second], params[key := second];
    assert a.Keys == b.Keys;
    assert forall k :: k in a ==> a[k] == b[k];
  }

  /**
   * The inner options loop over a tracked list never gets stuck, keeps
   * tracking, and removes none of the other recognised names.
   */
  lemma {:induction false} OptionNamesTracks(argv: seq<string>, st: State, key: string, names: seq<string>)
    requires WellFormed(argv) && Tracks(argv, st.argv) && Distinct(names)
    requires forall j :: 0 <= j < |names| ==> names[j] in OptionNameSet
    ensures OptionNames(st, key, names).Going?
    ensures Tracks(argv, OptionNames(st, key, names).st.argv)
    ensures forall m :: m in Names && m !in names ==> (m in OptionNames(st, key, names).st.argv <==> m in st.argv)
    decreases |names|
  {
    if names != [] {
      var name, tail := names[0], names[1..];
      assert forall j :: 0 <= j < |tail| ==> tail[j] == names[j + 1];
      if name in st.argv {
        TakeTracks(argv, st.argv, name);
        var t := TakeOption(st.argv, name);
        OptionNamesTracks(argv, State(t.rest, st.params[key := Text(t.value)]), key, tail);
      } else {
        OptionNamesTracks(argv, st, key, tail);
      }
    }
  }

  /** The inner options loop over a tracked list stores the chosen value for its key. */
  lemma {:induction false} OptionNamesStores(argv: seq<string>, st: State, key: string, names: seq<string>)
    requires WellFormed(argv) && Tracks(argv, st.argv) && Distinct(names)
    requires forall j :: 0 <= j < |names| ==> names[j] in OptionNameSet && (names[j] in st.argv <==> names[j] in argv)
    ensures OptionNames(st, key, names).Going?
    ensures OptionNames(st, key, names).st.params == Assign(st.params, key, Chosen(argv, names))
    decreases |names|, 1
  {
    if names != [] {
      if names[0] in st.argv {
        TakenStores(argv, st, key, names);
      } else {
        var tail := names[1..];
        assert forall j :: 0 <= j < |tail| ==> tail[j] == names[j + 1];
        OptionNamesStores(argv, st, key, tail);
      }
    }
  }

  /** The case of `OptionNamesStores` where the first name is present. */
  lemma {:induction false} TakenStores(argv: seq<string>, st: State, key: string, names: seq<string>)
    requires WellFormed(argv) && Tracks(argv, st.argv) && Distinct(names) && names != [] && names[0] in st.argv
    requires forall j :: 0 <= j < |names| ==> names[j] in OptionNameSet && (names[j] in st.argv <==> names[j] in argv)
    ensures OptionNames(st, key, names).Going?
    ensures OptionNames(st, key, names).st.params == Assign(st.params, key, Chosen(argv, names))
    decreases |names|, 0
  {
    var name, tail := names[0], names[1..];
    assert forall j :: 0 <= j < |tail| ==> tail[j] == names[j + 1];
    TakeTracks(argv, st.argv, name);
    var t := TakeOption(st.argv, name);
    var next := State(t.rest, st.params[key := Text(t.value)]);
    OptionNamesStores(argv, next, key, tail);
    var later := Chosen(argv, tail);
    if later.Some? {
      SetTwice(st.params, key, Text(t.value), Text(later.value));
    }
  }

  /** The keys of a dict given as (key, names) entries. */
  function Keys(entries: seq<(string, seq<string>)>): set<string>
    decreases |entries|
  {
    if entries == [] then {} else {entries[0].0} + Keys(entries[1..])
  }

  /** All the names of a dict given as (key, names) entries. */
  function NamesOf(entries: seq<(string, seq<string>)>): set<string>
    decreases |entries|
  {
    if entries == [] then {} else (set j | 0 <= j < |entries[0].1| :: entries[0].1[j]) + NamesOf(entries[1..])
  }

  /**
   * Entries with distinct keys whose names are drawn from `allowed`, no
   * name repeated within an entry or shared by two entries.
   */
  ghost predicate Entries(entries: seq<(string, seq<string>)>, allowed: set<string>)
    decreases |entries|
  {
    entries != [] ==>
      && Distinct(entries[0].1)
      && (forall j :: 0 <= j < |entries[0].1| ==> entries[0].1[j] in allowed && entries[0].1[j] !in NamesOf(entries[1..]))
      && entries[0].0 !in Keys(entries[1..])
      && Entries(entries[1..], allowed)
  }

  /** Two dicts agree at `k`: both lack it, or both map it to the same value. */
  ghost predicate Agrees(a: map<string, Param>, b: map<string, Param>, k: string) {
    (k in a <==> k in b) && (k in a ==> a[k] == b[k])
  }

  /** The options loop over a tracked list never gets stuck, keeps tracking, and leaves the flag names alone. */
  lemma {:induction false} OptionsLoopTracks(argv: seq<string>, st: State, options: seq<(string, seq<string>)>)
    requires WellFormed(argv) && Tracks(argv, st.argv) && Entries(options, OptionNameSet)
    ensures OptionsLoop(st, options).Going?
    ensures Tracks(argv, OptionsLoop(st, options).st.argv)
    ensures forall m :: m in FlagNameSet ==> (m in OptionsLoop(st, options).st.argv <==> m in st.argv)
    decreases |options|
  {
    if options != [] {
      NameSetsDisjoint();
      OptionNamesTracks(argv, st, options[0].0, options[0].1);
      OptionsLoopTracks(argv, OptionNames(st, options[0].0, options[0].1).st, options[1..]);
    }
  }

  lemma NameSetsDisjoint()
    ensures OptionNameSet !! FlagNameSet
  {
  }

  lemma {:induction false} NamesOfAllowed(entries: seq<(string, seq<string>)>, allowed: set<string>)
    requires Entries(entries, allowed)
    ensures NamesOf(entries) <= allowed
    decreases |entries|
  {
    if entries != [] {
      NamesOfAllowed(entries[1..], allowed);
    }
  }

  lemma {:induction false} KeysAt(entries: seq<(string, seq<string>)>, i: nat)
    requires i < |entries|
    ensures entries[i].0 in Keys(entries)
    decreases i
  {
    if i > 0 {
      KeysAt(entries[1..], i - 1);
    }
  }

  /**
   * The options loop over a tracked list stores, for each option, the value
   * its inner loop chose, and leaves every other key as it was.
   */
  lemma {:induction false} OptionsLoopStores(argv: seq<string>, st: State, options: seq<(string, seq<string>)>)
    requires WellFormed(argv) && Tracks(argv, st.argv) && Entries(options, OptionNameSet)
    requires forall i, j :: 0 <= i < |options| && 0 <= j < |options[i].1| ==> options[i].1[j] in OptionNameSet
    requires forall m :: m in NamesOf(options) ==> (m in st.argv <==> m in argv)
    ensures OptionsLoop(st, options).Going?
    ensures forall i :: 0 <= i < |options| ==>
      Agrees(OptionsLoop(st, options).st.params, Assign(st.params, options[i].0, Chosen(argv, options[i].1)), options[i].0)
    ensures forall k :: k !in Keys(options) ==> Agrees(OptionsLoop(st, options).st.params, st.params, k)
    decreases |options|
  {
    OptionsLoopTracks(argv, st, options);
    if options != [] {
      var key, names, rest := options[0].0, options[0].1, options[1..];
      NamesOfAllowed(rest, OptionNameSet);
      assert forall j :: 0 <= j < |names| ==> names[j] in NamesOf(options);
      OptionNamesTracks(argv, st, key, names);
      OptionNamesStores(argv, st, key, names);
      var s1 := OptionNames(st, key, names).st;
      forall m | m in NamesOf(rest)
        ensures m in s1.argv <==> m in argv
      {
        assert m !in names;
      }
      OptionsLoopStores(argv, s1, rest);
      StoresCombine(argv, options, st.params, s1.params, OptionsLoop(s1, rest).st.params);
      forall k | k !in Keys(options)
        ensures Agrees(OptionsLoop(s1, rest).st.params, st.params, k)
      {
        assert k != key && k !in Keys(rest);
      }
    }
  }

  /** One more option in front of the loop: what it stores, followed by what the rest stores. */
  lemma StoresCombine(argv: seq<string>, options: seq<(string, seq<string>)>,
                      before: map<string, Param>, middle: map<string, Param>, after: map<string, Param>)
    requires WellFormed(argv) && options != [] && options[0].0 !in Keys(options[1..])
    requires forall i, j :: 0 <= i < |options| && 0 <= j < |options[i].1| ==> options[i].1[j] in OptionNameSet
    requires middle == Assign(before, options[0].0, Chosen(argv, options[0].1))
    requires forall i :: 0 <= i < |options[1..]| ==>
      Agrees(after, Assign(middle, options[1..][i].0, Chosen(argv, options[1..][i].1)), options[1..][i].0)
    requires Agrees(after, middle, options[0].0)
    ensures forall i :: 0 <= i < |options| ==>
      Agrees(after, Assign(before, options[i].0, Chosen(argv, options[i].1)), options[i].0)
  {
    forall i | 0 <= i < |options|
      ensures Agrees(after, Assign(before, options[i].0, Chosen(argv, options[i].1)), options[i].0)
    {
      if i > 0 {
        assert options[i] == options[1..][i - 1];
        KeysAt(options[1..], i - 1);
        AssignPast(after, before, options[0].0, Chosen(argv, options[0].1), options[i].0, Chosen(argv, options[i].1));
      }
    }
  }

  /** Setting another key first does not change what a dict agrees with at `k`. */
  lemma AssignPast(after: map<string, Param>, before: map<string, Param>, key: string, first: Option<string>,
                   k: string, value: Option<string>)
    requires k != key && Agrees(after, Assign(Assign(before, key, first), k, value), k)
    ensures Agrees(after, Assign(before, k, value), k)
  {
  }

  /** Popping an element keeps every other value in the list. */
  lemma PopKeeps(argv: seq<string>, i: nat, m: string)
    requires i < |argv| && m != argv[i]
    ensures m in Pop(argv, i) <==> m in argv
  {
    var r := Pop(argv, i);
    assert argv == r[..i] + [argv[i]] + r[i..];
    if m in r {
      var p :| 0 <= p < |r| && r[p] == m;
      assert m in r[..i] || m in r[i..] by {
        if p < i { assert r[..i][p] == m; } else { assert r[i..][p - i] == m; }
      }
    }
  }

  /** Some name of `names` occurs in `argv`. */
  ghost predicate Mentioned(names: seq<string>, argv: seq<string>) {
    exists n :: n in names && n in argv
  }

  /** What the inner flags loop stores for its key: True when one of its names occurs. */
  function Enable(params: map<string, Param>, key: string, present: bool): map<string, Param> {
    if present then params[key := Enabled] else params
  }

  /**
   * The inner flags loop sets its key to True exactly when one of its names
   * occurs, and removes no other token.
   */
  lemma {:induction false} FlagNamesStores(st: State, key: string, names: seq<string>)
    requires Distinct(names)
    ensures FlagNames(st, key, names).params == Enable(st.params, key, Mentioned(names, st.argv))
    ensures forall m :: m !in names ==> (m in FlagNames(st, key, names).argv <==> m in st.argv)
    decreases |names|
  {
    if names != [] {
      var name, tail := names[0], names[1..];
      assert names == [name] + tail;
      assert Distinct(tail) by {
        assert forall j :: 0 <= j < |tail| ==> tail[j] == names[j + 1];
      }
      if name in st.argv {
        var i := IndexOf(st.argv, name);
        var next := State(Pop(st.argv, i), st.params[key := Enabled]);
        FlagNamesStores(next, key, tail);
        SetTwice(st.params, key, Enabled, Enabled);
        forall m | m != name
          ensures m in next.argv <==> m in st.argv
        {
          PopKeeps(st.argv, i, m);
        }
      } else {
        FlagNamesStores(st, key, tail);
        assert Mentioned(names, st.argv) ==> Mentioned(tail, st.argv);
      }
    }
  }

  /**
   * The flags loop sets each flag's key to True exactly when one of its
   * names occurs, and leaves every other key as it was.
   */
  lemma {:induction false} FlagsLoopStores(argv: seq<string>, st: State, flags: seq<(string, seq<string>)>)
    requires Entries(flags, FlagNameSet)
    requires forall m :: m in NamesOf(flags) ==> (m in st.argv <==> m in argv)
    ensures forall i :: 0 <= i < |flags| ==>
      Agrees(FlagsLoop(st, flags).params, Enable(st.params, flags[i].0, Mentioned(flags[i].1, argv)), flags[i].0)
    ensures forall k :: k !in Keys(flags) ==> Agrees(FlagsLoop(st, flags).params, st.params, k)
    decreases |flags|
  {
    if flags != [] {
      var key, names, rest := flags[0].0, flags[0].1, flags[1..];
      FlagNamesStores(st, key, names);
      var s1 := FlagNames(st, key, names);
      forall m | m in NamesOf(rest)
        ensures m in s1.argv <==> m in argv
      {
        assert m !in names;
      }
      assert Mentioned(names, st.argv) <==> Mentioned(names, argv) by {
        assert forall j :: 0 <= j < |names| ==> names[j] in NamesOf(flags);
      }
      FlagsLoopStores(argv, s1, rest);
      var after := FlagsLoop(s1, rest).params;
      forall i | 0 <= i < |flags|
        ensures Agrees(after, Enable(st.params, flags[i].0, Mentioned(flags[i].1, argv)), flags[i].0)
      {
        if i > 0 {
          assert flags[i] == rest[i - 1];
          KeysAt(rest, i - 1);
        }
      }
      forall k | k !in Keys(flags)
        ensures Agrees(after, st.params, k)
      {
        assert k != key && k !in Keys(rest);
      }
    }
  }

  /** The options dict: four keys, each with two names of its own. */
  lemma OptionEntries()
    ensures Entries(Options, OptionNameSet)
  {
    OptionEntriesMiddle();
    assert Options == [("matchType", ["--matchType", "-m"])] + Options[1..];
    EntriesPairCons("matchType", "--matchType", "-m", Options[1..], OptionNameSet);
  }

  /** One more entry with two names of its own in front of well-formed entries. */
  lemma EntriesPairCons(key: string, long: string, short: string, rest: seq<(string, seq<string>)>, allowed: set<string>)
    requires long != short && long in allowed && short in allowed
    requires long !in NamesOf(rest) && short !in NamesOf(rest) && key !in Keys(rest)
    requires Entries(rest, allowed)
    ensures Entries([(key, [long, short])] + rest, allowed)
  {
    assert ([(key, [long, short])] + rest)[1..] == rest;
  }

  /** The last three entries of the options dict. */
  lemma OptionEntriesMiddle()
    ensures Entries(Options[1..], OptionNameSet)
    ensures NamesOf(Options[1..]) == {"--from", "-f", "--to", "-t", "--limit", "-l"}
    ensures Keys(Options[1..]) == {"from", "to", "limit"}
  {
    OptionEntriesTail();
    NamesOfPair(Options[1..]);
  }

  /** The last two entries of the options dict. */
  lemma OptionEntriesTail()
    ensures Entries(Options[2..], OptionNameSet)
    ensures NamesOf(Options[2..]) == {"--to", "-t", "--limit", "-l"}
  {
    NamesOfPair(Options[3..]);
    NamesOfPair(Options[2..]);
  }

  /** The names of entries whose first entry has two names. */
  lemma NamesOfPair(entries: seq<(string, seq<string>)>)
    requires entries != [] && |entries[0].1| == 2
    ensures NamesOf(entries) == {entries[0].1[0], entries[0].1[1]} + NamesOf(entries[1..])
  {
    var names := entries[0].1;
    assert (set j | 0 <= j < |names| :: names[j]) == {names[0], names[1]} by {
      assert forall j :: 0 <= j < |names| ==> names[j] == names[0] || names[j] == names[1];
    }
  }

  lemma OptionNamesAllowed()
    ensures forall i, j :: 0 <= i < |Options| && 0 <= j < |Options[i].1| ==> Options[i].1[j] in OptionNameSet
  {
  }

  lemma OptionKeysOf()
    ensures Keys(Options) == OptionKeys
  {
  }

  /** The flags dict: two keys, each with two names of its own. */
  lemma FlagEntries()
    ensures Entries(Flags, FlagNameSet)
    ensures Keys(Flags) == FlagKeys
    ensures NamesOf(Flags) <= FlagNameSet
  {
    NamesOfAllowed(Flags, FlagNameSet);
  }

  /** An option's key is set exactly when one of its names occurs. */
  lemma {:induction false} ChosenMentioned(argv: seq<string>, names: seq<string>)
    requires WellFormed(argv)
    requires forall j :: 0 <= j < |names| ==> names[j] in OptionNameSet
    ensures Chosen(argv, names).Some? <==> Mentioned(names, argv)
    decreases |names|
  {
    if names != [] {
      var tail := names[1..];
      assert names == [names[0]] + tail;
      ChosenMentioned(argv, tail);
    }
  }

  /** The value chosen is the token after the last of the names that occurs. */
  lemma {:induction false} ChosenLast(argv: seq<string>, names: seq<string>, j: nat)
    requires WellFormed(argv)
    requires forall l :: 0 <= l < |names| ==> names[l] in OptionNameSet
    requires j < |names| && names[j] in argv
    requires forall l :: j < l < |names| ==> names[l] !in argv
    ensures Chosen(argv, names) == Some(Follower(argv, names[j]))
    decreases j
  {
    var tail := names[1..];
    if j == 0 {
      ChosenMentioned(argv, tail);
      assert !Mentioned(tail, argv) by {
        forall n | n in tail
          ensures n !in argv
        {
          var l :| 0 <= l < |tail| && tail[l] == n;
          assert names[l + 1] == n;
        }
      }
    } else {
      assert forall l :: 0 <= l < |tail| ==> tail[l] == names[l + 1];
      ChosenLast(argv, tail, j - 1);
    }
  }

  /**
   * What `parseargs` promises for an option: its key is set exactly when one
   * of its names occurs, and then to the token right after the last of its
   * names that occurs.
   */
  ghost predicate StoresOption(params: map<string, Param>, argv: seq<string>, key: string, names: seq<string>) {
    && (key in params <==> Mentioned(names, argv))
    && (forall j :: 0 <= j < |names| && names[j] in argv && (forall l :: j < l < |names| ==> names[l] !in argv) ==>
          && key in params
          && IndexOf(argv, names[j]) + 1 < |argv|
          && params[key] == Text(argv[IndexOf(argv, names[j]) + 1]))
  }

  /** What `parseargs` promises for a flag: its key is set, to True, exactly when one of its names occurs. */
  ghost predicate StoresFlag(params: map<string, Param>, argv: seq<string>, key: string, names: seq<string>) {
    && (key in params <==> Mentioned(names, argv))
    && (key in params ==> params[key] == Enabled)
  }

  /** Storing the chosen value is what `parseargs` promises for an option. */
  lemma ChosenStores(params: map<string, Param>, argv: seq<string>, key: string, names: seq<string>)
    requires WellFormed(argv)
    requires forall j :: 0 <= j < |names| ==> names[j] in OptionNameSet
    requires Agrees(params, Assign(map[], key, Chosen(argv, names)), key)
    ensures StoresOption(params, argv, key, names)
  {
    ChosenMentioned(argv, names);
    forall j | 0 <= j < |names| && names[j] in argv && (forall l :: j < l < |names| ==> names[l] !in argv)
      ensures key in params && IndexOf(argv, names[j]) + 1 < |argv|
      ensures params[key] == Text(argv[IndexOf(argv, names[j]) + 1])
    {
      ChosenLast(argv, names, j);
    }
  }

  /** The option keys and the flag keys are apart. */
  lemma KeySetsDisjoint()
    ensures OptionKeys !! FlagKeys
  {
  }

  /**
   * The options loop over a well-formed command line: it never gets stuck,
   * stores each option's chosen value, and leaves the flag names in place.
   */
  lemma OptionsStage(argv: seq<string>)
    requires WellFormed(argv)
    ensures OptionsLoop(State(argv, map[]), Options).Going?
    ensures StoresOptions(OptionsLoop(State(argv, map[]), Options).st.params, argv)
    ensures forall k :: k !in OptionKeys ==> k !in OptionsLoop(State(argv, map[]), Options).st.params
    ensures forall m :: m in FlagNameSet ==> (m in OptionsLoop(State(argv, map[]), Options).st.argv <==> m in argv)
  {
    var st := State(argv, map[]);
    OptionEntries();
    OptionNamesAllowed();
    OptionKeysOf();
    NamesOfAllowed(Options, OptionNameSet);
    OptionsLoopTracks(argv, st, Options);
    OptionsLoopStores(argv, st, Options);
    var params := OptionsLoop(st, Options).st.params;
    forall i | 0 <= i < |Options|
      ensures StoresOption(params, argv, Options[i].0, Options[i].1)
    {
      ChosenStores(params, argv, Options[i].0, Options[i].1);
    }
  }

  /** Whether an option is stored as promised depends only on its own key. */
  lemma StoresAgree(a: map<string, Param>, b: map<string, Param>, argv: seq<string>, key: string, names: seq<string>)
    requires StoresOption(a, argv, key, names) && Agrees(b, a, key)
    ensures StoresOption(b, argv, key, names)
  {
  }

  /**
   * What `parseargs` promises for the dict: every option stored as
   * `StoresOption` says and every flag as `StoresFlag` says.
   */
  ghost predicate StoresAll(params: map<string, Param>, argv: seq<string>) {
    StoresOptions(params, argv) && forall i :: 0 <= i < |Flags| ==> StoresFlag(params, argv, Flags[i].0, Flags[i].1)
  }

  /** Every option stored as `StoresOption` says. */
  ghost predicate StoresOptions(params: map<string, Param>, argv: seq<string>) {
    forall i :: 0 <= i < |Options| ==> StoresOption(params, argv, Options[i].0, Options[i].1)
  }

  /**
   * The whole parse of a well-formed command line: both loops go through,
   * every option key is set exactly when one of its names occurs, to the
   * token after the last of them that occurs, and every flag key is set to
   * True exactly when one of its names occurs.
   */
  lemma ParseWellFormed(argv: seq<string>)
    requires WellFormed(argv)
    ensures Removals(argv).Going? && !Parse(argv).MissingValue?
    ensures StoresAll(Removals(argv).st.params, argv)
  {
    OptionsStage(argv);
    var s1 := OptionsLoop(State(argv, map[]), Options).st;
    FlagsStage(argv, s1);
  }

  /**
   * The flags loop after the options loop: it sets each flag as promised
   * and keeps what the options loop stored.
   */
  lemma FlagsStage(argv: seq<string>, s1: State)
    requires StoresOptions(s1.params, argv)
    requires forall k :: k !in OptionKeys ==> k !in s1.params
    requires forall m :: m in FlagNameSet ==> (m in s1.argv <==> m in argv)
    ensures StoresAll(FlagsLoop(s1, Flags).params, argv)
  {
    FlagEntries();
    FlagsLoopStores(argv, s1, Flags);
    var params := FlagsLoop(s1, Flags).params;
    DictKeys();
    KeySetsDisjoint();
    forall i | 0 <= i < |Options|
      ensures StoresOption(params, argv, Options[i].0, Options[i].1)
    {
      StoresAgree(s1.params, params, argv, Options[i].0, Options[i].1);
    }
  }

  /**
   * The tokens of `argv` that are not recognised names and do not directly
   * follow an option name, in order; `afterOption` says whether the token
   * before `argv` was an option name.
   */
  function BareAfter(argv: seq<string>, afterOption: bool): seq<string>
    decreases |argv|
  {
    if argv == [] then []
    else (if argv[0] !in Names && !afterOption then [argv[0]] else []) + BareAfter(argv[1..], argv[0] in OptionNameSet)
  }

  /** The tokens of the command line that are neither a recognised name nor an option's value. */
  function Bare(argv: seq<string>): seq<string> {
    BareAfter(argv, false)
  }

  /** Whether the token before `b` is an option name, once `a` is put in front of it. */
  function EndsInOption(a: seq<string>, afterOption: bool): bool {
    if a == [] then afterOption else a[|a| - 1] in OptionNameSet
  }

  lemma {:induction false} BareAppend(a: seq<string>, b: seq<string>, afterOption: bool)
    ensures BareAfter(a + b, afterOption) == BareAfter(a, afterOption) + BareAfter(b, EndsInOption(a, afterOption))
    decreases |a|
  {
    if a == [] {
      assert a + b == b;
    } else {
      var head := if a[0] !in Names && !afterOption then [a[0]] else [];
      var next := a[0] in OptionNameSet;
      assert (a + b)[0] == a[0] && (a + b)[1..] == a[1..] + b;
      assert BareAfter(a + b, afterOption) == head + BareAfter(a[1..] + b, next);
      assert BareAfter(a, afterOption) == head + BareAfter(a[1..], next);
      BareAppend(a[1..], b, next);
      assert EndsInOption(a[1..], next) == EndsInOption(a, afterOption) by {
        if a[1..] != [] {
          assert a[1..][|a[1..]| - 1] == a[|a| - 1];
        }
      }
      AppendAssoc(head, BareAfter(a[1..], next), BareAfter(b, EndsInOption(a, afterOption)));
    }
  }

  /** Without recognised names every token is bare. */
  lemma {:induction false} BareWithoutNames(argv: seq<string>)
    requires forall k :: 0 <= k < |argv| ==> argv[k] !in Names
    ensures Bare(argv) == argv
    decreases |argv|
  {
    if argv != [] {
      assert forall k :: 0 <= k < |argv[1..]| ==> argv[1..][k] == argv[k + 1];
      BareWithoutNames(argv[1..]);
      assert argv == [argv[0]] + argv[1..];
    }
  }

  /** In a well-formed list no option name stands right before a recognised name. */
  lemma NotAfterOption(argv: seq<string>, i: nat)
    requires WellFormed(argv) && i < |argv| && argv[i] in Names
    ensures !EndsInOption(argv[..i], false)
  {
    if i > 0 {
      assert argv[..i][i - 1] == argv[i - 1];
    }
  }

  /** Taking an option name and its value out of a well-formed list keeps the bare tokens. */
  lemma DropPairBare(argv: seq<string>, i: nat)
    requires WellFormed(argv) && i < |argv| && argv[i] in OptionNameSet
    ensures i + 1 < |argv| && Bare(DropTwo(argv, i)) == Bare(argv)
  {
    var a, c := argv[..i], argv[i + 2..];
    var pair := [argv[i], argv[i + 1]];
    assert argv == a + (pair + c);
    NotAfterOption(argv, i);
    BareAppend(a, pair + c, false);
    BareAppend(a, c, false);
    var value := argv[i + 1];
    assert value !in Names;
    assert (pair + c)[1..] == [value] + c;
    assert BareAfter(pair + c, false) == BareAfter([value] + c, true);
    assert ([value] + c)[1..] == c;
    assert BareAfter([value] + c, true) == BareAfter(c, false);
  }

  /** Popping a flag name out of a well-formed list keeps the bare tokens. */
  lemma PopFlagBare(argv: seq<string>, i: nat)
    requires WellFormed(argv) && i < |argv| && argv[i] in FlagNameSet
    ensures Bare(Pop(argv, i)) == Bare(argv)
  {
    var a, c := argv[..i], argv[i + 1..];
    assert argv == a + ([argv[i]] + c);
    NotAfterOption(argv, i);
    BareAppend(a, [argv[i]] + c, false);
    BareAppend(a, c, false);
    assert ([argv[i]] + c)[1..] == c;
    assert BareAfter([argv[i]] + c, false) == BareAfter(c, false);
  }

  /** Where the token at `p` of `Pop(argv, i)` stood in `argv`. */
  function PopOrigin(i: nat, p: nat): nat {
    if p < i then p else p + 1
  }

  lemma PopOrigins(argv: seq<string>, i: nat)
    requires i < |argv|
    ensures forall p :: 0 <= p < |argv| - 1 ==> Pop(argv, i)[p] == argv[PopOrigin(i, p)]
  {
    var r := Pop(argv, i);
    forall p | 0 <= p < |argv| - 1
      ensures r[p] == argv[PopOrigin(i, p)]
    {
      if p < i {
        assert r[p] == r[..i][p];
      } else {
        assert r[p] == r[i..][p - i];
      }
    }
  }

  /** Popping a flag name out of a well-formed list leaves it well formed, without that name. */
  lemma PopFlagWellFormed(argv: seq<string>, i: nat)
    requires WellFormed(argv) && i < |argv| && argv[i] in FlagNameSet
    ensures WellFormed(Pop(argv, i)) && argv[i] !in Pop(argv, i)
  {
    var r := Pop(argv, i);
    PopOrigins(argv, i);
    PopFlagFollowers(argv, i);
    forall p, q | 0 <= p < q < |r| && r[p] in Names
      ensures r[p] != r[q]
    {
      assert PopOrigin(i, p) < PopOrigin(i, q);
    }
    forall p | 0 <= p < |r|
      ensures r[p] != argv[i]
    {
      assert PopOrigin(i, p) != i;
    }
  }

  /** After popping a flag name from a well-formed list every option name is still followed by a token that is not a name. */
  lemma PopFlagFollowers(argv: seq<string>, i: nat)
    requires WellFormed(argv) && i < |argv| && argv[i] in FlagNameSet
    ensures forall p :: 0 <= p < |Pop(argv, i)| && Pop(argv, i)[p] in OptionNameSet ==>
      p + 1 < |Pop(argv, i)| && Pop(argv, i)[p + 1] !in Names
  {
    var r := Pop(argv, i);
    PopOrigins(argv, i);
    forall p | 0 <= p < |r| && r[p] in OptionNameSet
      ensures p + 1 < |r| && r[p + 1] !in Names
    {
      if p + 1 < i {
        assert r[p + 1] == argv[p + 1];
      } else if p >= i {
        assert r[p] == argv[p + 1] && r[p + 1] == argv[p + 2];
      } else {
        assert false;
      }
    }
  }

  /** Taking an option name and its value out of a well-formed list: still well formed, without that name. */
  lemma DropPairRemoves(argv: seq<string>, i: nat)
    requires WellFormed(argv) && i < |argv| && argv[i] in OptionNameSet
    ensures i + 1 < |argv| && argv[i] !in DropTwo(argv, i)
    ensures forall m :: m in DropTwo(argv, i) ==> m in argv
  {
    var r := DropTwo(argv, i);
    DropTwoOrigin(argv, i);
    forall p | 0 <= p < |r|
      ensures r[p] != argv[i] && r[p] in argv
    {
      assert Origin(i, p) != i;
    }
  }

  /** Taking an option that occurs out of a well-formed list. */
  lemma TakeBare(current: seq<string>, name: string)
    requires WellFormed(current) && name in OptionNameSet && name in current
    ensures TakeOption(current, name).Taken?
    ensures WellFormed(TakeOption(current, name).rest)
    ensures Bare(TakeOption(current, name).rest) == Bare(current)
    ensures name !in TakeOption(current, name).rest
    ensures forall m :: m in TakeOption(current, name).rest ==> m in current
  {
    var i := IndexOf(current, name);
    DropPairWellFormed(current, i);
    DropPairBare(current, i);
    DropPairRemoves(current, i);
    assert TakeOption(current, name) == Taken(DropTwo(current, i), current[i + 1]);
  }

  /** Popping a flag that occurs out of a well-formed list. */
  lemma PopFlagBareAll(current: seq<string>, name: string)
    requires WellFormed(current) && name in FlagNameSet && name in current
    ensures WellFormed(Pop(current, IndexOf(current, name)))
    ensures Bare(Pop(current, IndexOf(current, name))) == Bare(current)
    ensures name !in Pop(current, IndexOf(current, name))
    ensures forall m :: m in Pop(current, IndexOf(current, name)) ==> m in current
  {
    var i := IndexOf(current, name);
    PopFlagWellFormed(current, i);
    PopFlagBare(current, i);
    PopOrigins(current, i);
  }

  /**
   * The inner options loop over a well-formed list never raises, keeps the
   * bare tokens, takes out every one of its names, and adds nothing.
   */
  lemma {:induction false} OptionNamesBare(st: State, key: string, names: seq<string>)
    requires WellFormed(st.argv)
    requires forall j :: 0 <= j < |names| ==> names[j] in OptionNameSet
    ensures OptionNames(st, key, names).Going?
    ensures WellFormed(OptionNames(st, key, names).st.argv)
    ensures Bare(OptionNames(st, key, names).st.argv) == Bare(st.argv)
    ensures forall j :: 0 <= j < |names| ==> names[j] !in OptionNames(st, key, names).st.argv
    ensures forall m :: m in OptionNames(st, key, names).st.argv ==> m in st.argv
    decreases |names|
  {
    if names != [] {
      var name, tail := names[0], names[1..];
      assert forall j :: 0 <= j < |tail| ==> tail[j] == names[j + 1];
      var next := st;
      if name in st.argv {
        TakeBare(st.argv, name);
        var t := TakeOption(st.argv, name);
        next := State(t.rest, st.params[key := Text(t.value)]);
      }
      assert OptionNames(st, key, names) == OptionNames(next, key, tail);
      assert name !in next.argv && forall m :: m in next.argv ==> m in st.argv;
      OptionNamesBare(next, key, tail);
      var r := OptionNames(next, key, tail).st.argv;
      forall j | 0 <= j < |names|
        ensures names[j] !in r
      {
        if j > 0 {
          assert names[j] == tail[j - 1];
        }
      }
    }
  }

  /** The options loop over a well-formed list never raises, keeps the bare tokens and takes out every option name. */
  lemma {:induction false} OptionsLoopBare(st: State, options: seq<(string, seq<string>)>)
    requires WellFormed(st.argv)
    requires forall i, j :: 0 <= i < |options| && 0 <= j < |options[i].1| ==> options[i].1[j] in OptionNameSet
    ensures OptionsLoop(st, options).Going?
    ensures WellFormed(OptionsLoop(st, options).st.argv)
    ensures Bare(OptionsLoop(st, options).st.argv) == Bare(st.argv)
    ensures forall m :: m in NamesOf(options) ==> m !in OptionsLoop(st, options).st.argv
    ensures forall m :: m in OptionsLoop(st, options).st.argv ==> m in st.argv
    decreases |options|
  {
    if options != [] {
      var key, names, rest := options[0].0, options[0].1, options[1..];
      assert forall i :: 0 <= i < |rest| ==> rest[i] == options[i + 1];
      OptionNamesBare(st, key, names);
      var s1 := OptionNames(st, key, names).st;
      OptionsLoopBare(s1, rest);
    }
  }

  /**
   * The inner flags loop over a well-formed list keeps the bare tokens,
   * takes out every one of its names, and adds nothing.
   */
  lemma {:induction false} FlagNamesBare(st: State, key: string, names: seq<string>)
    requires WellFormed(st.argv)
    requires forall j :: 0 <= j < |names| ==> names[j] in FlagNameSet
    ensures WellFormed(FlagNames(st, key, names).argv)
    ensures Bare(FlagNames(st, key, names).argv) == Bare(st.argv)
    ensures forall j :: 0 <= j < |names| ==> names[j] !in FlagNames(st, key, names).argv
    ensures forall m :: m in FlagNames(st, key, names).argv ==> m in st.argv
    decreases |names|
  {
    if names != [] {
      var name, tail := names[0], names[1..];
      assert forall j :: 0 <= j < |tail| ==> tail[j] == names[j + 1];
      if name in st.argv {
        PopFlagBareAll(st.argv, name);
        var next := State(Pop(st.argv, IndexOf(st.argv, name)), st.params[key := Enabled]);
        assert FlagNames(st, key, names) == FlagNames(next, key, tail);
        FlagNamesBare(next, key, tail);
      } else {
        assert FlagNames(st, key, names) == FlagNames(st, key, tail);
        FlagNamesBare(st, key, tail);
      }
    }
  }

  /** The flags loop over a well-formed list keeps the bare tokens and takes out every flag name. */
  lemma {:induction false} FlagsLoopBare(st: State, flags: seq<(string, seq<string>)>)
    requires WellFormed(st.argv)
    requires forall i, j :: 0 <= i < |flags| && 0 <= j < |flags[i].1| ==> flags[i].1[j] in FlagNameSet
    ensures Bare(FlagsLoop(st, flags).argv) == Bare(st.argv)
    ensures forall m :: m in NamesOf(flags) ==> m !in FlagsLoop(st, flags).argv
    ensures forall m :: m in FlagsLoop(st, flags).argv ==> m in st.argv
    decreases |flags|
  {
    if flags != [] {
      var key, names, rest := flags[0].0, flags[0].1, flags[1..];
      assert forall i :: 0 <= i < |rest| ==> rest[i] == flags[i + 1];
      FlagNamesBare(st, key, names);
      FlagsLoopBare(FlagNames(st, key, names), rest);
    }
  }

  lemma FlagNamesAllowed()
    ensures forall i, j :: 0 <= i < |Flags| && 0 <= j < |Flags[i].1| ==> Flags[i].1[j] in FlagNameSet
  {
  }

  /** The names of the options dict are exactly the option names. */
  lemma OptionNamesOfAll()
    ensures NamesOf(Options) == OptionNameSet
  {
    OptionEntriesMiddle();
    NamesOfPair(Options);
  }

  /** The names of the flags dict are exactly the flag names. */
  lemma FlagNamesOfAll()
    ensures NamesOf(Flags) == FlagNameSet
  {
    NamesOfPair(Flags);
    NamesOfPair(Flags[1..]);
    assert Flags[1..][1..] == [];
  }

  /**
   * Both loops over a well-formed command line go through and leave exactly
   * its bare tokens: those that are neither a recognised name nor the value
   * after an option name, in their order.
   */
  lemma RemovalsBare(argv: seq<string>)
    requires WellFormed(argv)
    ensures Removals(argv).Going? && Removals(argv).st.argv == Bare(argv)
  {
    var st := State(argv, map[]);
    OptionNamesAllowed();
    OptionsLoopBare(st, Options);
    var s1 := OptionsLoop(st, Options).st;
    FlagNamesAllowed();
    FlagsLoopBare(s1, Flags);
    var left := FlagsLoop(s1, Flags).argv;
    OptionNamesOfAll();
    FlagNamesOfAll();
    forall k | 0 <= k < |left|
      ensures left[k] !in Names
    {
      var m := left[k];
      assert m in left;
      assert m in s1.argv;
    }
    BareWithoutNames(left);
  }

  /**
   * The `url` of a well-formed command line: one bare token becomes `url`,
   * more than one is a usage error, and with none `url` stays unset.
   */
  lemma ParseUrl(argv: seq<string>)
    requires WellFormed(argv) && argv != []
    ensures Removals(argv).Going?
    ensures |Bare(argv)| > 1 ==> Parse(argv) == Usage
    ensures |Bare(argv)| == 1 ==> Parse(argv) == Params(Removals(argv).st.params["url" := Text(Bare(argv)[0])])
    ensures Bare(argv) == [] ==> Parse(argv) == Params(Removals(argv).st.params) && "url" !in Removals(argv).st.params
  {
    RemovalsBare(argv);
    RemovalsConsistent(argv);
    UrlNotRecognised();
  }

  /** `url` is neither an option key nor a flag key. */
  lemma UrlNotRecognised()
    ensures "url" !in OptionKeys && "url" !in FlagKeys
  {
    assert |"url"| == 3;
  }

  /** A flag before the url, and an option after it: the url is the one bare token either way. */
  lemma BareExamples(url: string, value: string)
    requires url !in Names && value !in Names
    ensures Bare(["-d", url]) == [url]
    ensures Bare([url, "--from", value]) == [url]
  {
    assert "-d" in Names && "-d" !in OptionNameSet;
    assert "--from" in OptionNameSet;
    assert [url][1..] == [] && [value][1..] == [];
    assert BareAfter([url], false) == [url];
    assert BareAfter([value], true) == [];
    assert ["-d", url][1..] == [url];
    assert BareAfter(["-d", url], false) == BareAfter([url], false);
    assert ["--from", value][1..] == [value];
    assert BareAfter(["--from", value], false) == BareAfter([value], true);
    assert [url, "--from", value][1..] == ["--from", value];
    assert BareAfter([url, "--from", value], false) == [url] + BareAfter(["--from", value], false);
  }
}
