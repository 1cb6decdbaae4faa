/**
 * The command-line option parser. Options (with a short and a long name)
 * and positional arguments are registered on a parser, which then walks
 * argv: it classifies each token, looks options up by short name or by
 * unique long-name prefix, collects the values an option takes, and
 * fills the positional slots in registration order.
 *
 * The option classes are a tagged datatype; `process` becomes a
 * `Reaction` recorded in the run's events, and the help and version
 * exceptions become outcomes of `parse`, as do the runtime errors.
 */
module Options {
  import opened Strings

  /** `std::numeric_limits<size_t>::max()`. */
  const SizeMax: nat := 0xffff_ffff_ffff_ffff

  /** A short name of `'\0'` means the option has none. */
  const NoShortName: char := '\0'

  const InvalidOption: string := "Invalid option!"
  const AmbiguousOption: string := "Ambiguous option!"
  const WrongNumber: string := "Wrong number arguments for given option: "
  const TooManyOrTooFew: string := "Too many or too few arguments!"

  datatype Option<T> = None | Some(value: T)
  datatype Result<T> = Ok(value: T) | Err(message: string)

  // ---------------------------------------------------------------------
  // Options and arguments

  /** Which option class: what its `process` does with the collected values. */
  datatype Kind = Plain | Store | Flag(val: bool) | Help | Version

  datatype Opt = Opt(kind: Kind, shortName: char, longName: string, description: string,
                     argName: string, optional: bool, required: nat)

  /** The base `option`, whose `process` does nothing. */
  function PlainOption(shortName: char, longName: string, description: string,
                       argName: string := "", optional: bool := false, required: nat := 0): (o: Opt)
    ensures o.kind == Plain && o.required == required && o.optional == optional
  {
    Opt(Plain, shortName, longName, description, argName, optional, required)
  }

  /** `store_option`: one value is required unless the value is optional. */
  function StoreOption(shortName: char, longName: string, description: string,
                       argName: string := "", optional: bool := false): (o: Opt)
    ensures o.kind == Store && o.optional == optional
    ensures o.required == 0 <==> optional
    ensures o.required <= 1
  {
    Opt(Store, shortName, longName, description, argName, optional, if optional then 0 else 1)
  }

  /** `bool_option`: no value is required; `process` stores `val`. */
  function BoolOption(shortName: char, longName: string, description: string,
                      argName: string, optional: bool := true, val: bool := true): (o: Opt)
    ensures o.kind == Flag(val) && o.required == 0 && o.optional == optional
  {
    Opt(Flag(val), shortName, longName, description, argName, optional, 0)
  }

  /** `help_option`: takes no value and signals help. */
  function HelpOption(shortName: char, longName: string): (o: Opt)
    ensures o.kind == Help && !o.optional && o.required == 0
  {
    Opt(Help, shortName, longName, "display help and usage", "", false, 0)
  }

  /** `version_option`: takes no value and signals version. */
  function VersionOption(shortName: char, longName: string): (o: Opt)
    ensures o.kind == Version && !o.optional && o.required == 0
  {
    Opt(Version, shortName, longName, "show version information", "", false, 0)
  }

  /** What `process` did with the values collected for an option. */
  datatype Reaction = Unchanged | Assign(value: string) | SetTo(val: bool) | SignalHelp | SignalVersion

  /**
   * `process`: a store option converts its first value and leaves its
   * target alone when there is none; a bool option stores `val` whatever
   * the values; help and version always signal.
   */
  function Process(o: Opt, args: seq<string>): (r: Reaction)
    ensures o.kind == Store ==> (r == Unchanged <==> args == [])
    ensures o.kind == Store && args != [] ==> r == Assign(args[0])
    ensures o.kind.Flag? ==> r == SetTo(o.kind.val)
    ensures o.kind == Plain ==> r == Unchanged
    ensures r == SignalHelp <==> o.kind == Help
    ensures r == SignalVersion <==> o.kind == Version
  {
    match o.kind
    case Plain => Unchanged
    case Store => if args == [] then Unchanged else Assign(args[0])
    case Flag(val) => SetTo(val)
    case Help => SignalHelp
    case Version => SignalVersion
  }

  /** A positional `argument` and how many tokens it accepts. */
  datatype Argument = Argument(name: string, description: string, minArgs: nat, maxArgs: nat)

  /** `store_argument`, which keeps the base class's counts of one token. */
  function StoreArgument(name: string, description: string): (a: Argument)
    ensures a.minArgs == 1 && a.maxArgs == 1 && a.name == name
  {
    Argument(name, description, 1, 1)
  }

  // ---------------------------------------------------------------------
  // Tokens

  predicate IsLongOption(arg: string)
  {
    |arg| > 2 && arg[0] == '-' && arg[1] == '-'
  }

  predicate IsShortOption(arg: string)
  {
    |arg| > 1 && arg[0] == '-' && arg[1] != '-'
  }

  predicate IsEndOfOptions(arg: string)
  {
    arg == "--"
  }

  /**
   * A token is at most one of the three kinds, and a token of two or
   * more characters that starts with '-' is exactly one of them.
   */
  lemma TokenKinds(arg: string)
    ensures !(IsLongOption(arg) && IsShortOption(arg))
    ensures !(IsLongOption(arg) && IsEndOfOptions(arg))
    ensures !(IsShortOption(arg) && IsEndOfOptions(arg))
    ensures |arg| >= 2 && arg[0] == '-' ==> IsLongOption(arg) || IsShortOption(arg) || IsEndOfOptions(arg)
  {
    if |arg| == 2 && arg[0] == '-' && arg[1] == '-' {
      assert arg == "--";
    }
  }

  // ---------------------------------------------------------------------
  // Lookup

  /** `find(char)`: the first registered option with that short name. */
  function LookupShort(opts: seq<Opt>, c: char, from: nat := 0): (r: Result<nat>)
    requires from <= |opts|
    ensures r.Ok? ==> from <= r.value < |opts| && opts[r.value].shortName == c
    ensures r.Ok? ==> forall j :: from <= j < r.value ==> opts[j].shortName != c
    ensures r.Err? <==> forall j :: from <= j < |opts| ==> opts[j].shortName != c
    ensures r.Err? ==> r.message == InvalidOption
    decreases |opts| - from
  {
    if from == |opts| then Err(InvalidOption)
    else if opts[from].shortName == c then Ok(from)
    else LookupShort(opts, c, from + 1)
  }

  /** `starts_with(s, p)` over the whole of `s`. */
  predicate IsPrefix(p: string, s: string)
  {
    |p| <= |s| && s[..|p|] == p
  }

  predicate PrefixAt(opts: seq<Opt>, name: string, j: int)
  {
    0 <= j < |opts| && IsPrefix(name, opts[j].longName)
  }

  predicate ExactAt(opts: seq<Opt>, name: string, j: int)
  {
    0 <= j < |opts| && opts[j].longName == name
  }

  /**
   * `find(string)` from position `k`, with `cand` the prefix match seen so
   * far: an exact match is returned at once, a second prefix match is
   * ambiguous, and at the end the single candidate (if any) is returned.
   */
  function LookupLong(opts: seq<Opt>, name: string, k: nat, cand: Option<nat>): (r: Result<nat>)
    requires k <= |opts|
    requires cand.Some? ==> PrefixAt(opts, name, cand.value)
    ensures r.Ok? ==> PrefixAt(opts, name, r.value)
    ensures r.Err? ==> r.message == InvalidOption || r.message == AmbiguousOption
    decreases |opts| - k
  {
    if k == |opts| then (if cand.None? then Err(InvalidOption) else Ok(cand.value))
    else if opts[k].longName == name then Ok(k)
    else if IsPrefix(name, opts[k].longName) then
      (if cand.None? then LookupLong(opts, name, k + 1, Some(k)) else Err(AmbiguousOption))
    else LookupLong(opts, name, k + 1, cand)
  }

  /** "Invalid option!" exactly when no long name starts with `name` (and nothing was seen before). */
  lemma {:induction false} LookupLongInvalid(opts: seq<Opt>, name: string, k: nat, cand: Option<nat>)
    requires k <= |opts|
    requires cand.Some? ==> PrefixAt(opts, name, cand.value)
    ensures LookupLong(opts, name, k, cand) == Err(InvalidOption)
        <==> cand.None? && forall j :: k <= j < |opts| ==> !PrefixAt(opts, name, j)
    decreases |opts| - k
  {
    if k < |opts| {
      if opts[k].longName == name {
        assert IsPrefix(name, opts[k].longName);
      } else if IsPrefix(name, opts[k].longName) {
        assert PrefixAt(opts, name, k);
        if cand.None? {
          LookupLongInvalid(opts, name, k + 1, Some(k));
        }
      } else {
        LookupLongInvalid(opts, name, k + 1, cand);
      }
    }
  }

  /** A long name that is the only one starting with `name` is found. */
  lemma {:induction false} LookupLongUnique(opts: seq<Opt>, name: string, k: nat, j: nat)
    requires k <= j && PrefixAt(opts, name, j)
    requires forall m :: k <= m < |opts| && m != j ==> !PrefixAt(opts, name, m)
    ensures LookupLong(opts, name, k, None) == Ok(j)
    decreases |opts| - k
  {
    if k < j {
      assert !PrefixAt(opts, name, k);
      LookupLongUnique(opts, name, k + 1, j);
    } else if opts[k].longName != name {
      LookupLongRest(opts, name, k + 1, j);
    }
  }

  /** With a single candidate and no further prefix match, the candidate is returned. */
  lemma {:induction false} LookupLongRest(opts: seq<Opt>, name: string, k: nat, c: nat)
    requires k <= |opts| && PrefixAt(opts, name, c)
    requires forall m :: k <= m < |opts| ==> !PrefixAt(opts, name, m)
    ensures LookupLong(opts, name, k, Some(c)) == Ok(c)
    decreases |opts| - k
  {
    if k < |opts| {
      assert !PrefixAt(opts, name, k);
      LookupLongRest(opts, name, k + 1, c);
    }
  }

  /**
   * An exact match wins if no earlier option matched exactly and at most
   * one earlier option matched as a prefix.
   */
  lemma {:induction false} LookupLongExact(opts: seq<Opt>, name: string, k: nat, cand: Option<nat>, j: nat)
    requires k <= j && ExactAt(opts, name, j)
    requires cand.Some? ==> PrefixAt(opts, name, cand.value)
    requires forall m :: k <= m < j ==> !ExactAt(opts, name, m)
    requires forall m1, m2 :: k <= m1 < j && k <= m2 < j && PrefixAt(opts, name, m1) && PrefixAt(opts, name, m2) ==> m1 == m2
    requires cand.Some? ==> forall m :: k <= m < j ==> !PrefixAt(opts, name, m)
    ensures LookupLong(opts, name, k, cand) == Ok(j)
    decreases j - k
  {
    if k < j {
      assert !ExactAt(opts, name, k);
      if PrefixAt(opts, name, k) {
        LookupLongExact(opts, name, k + 1, Some(k), j);
      } else {
        LookupLongExact(opts, name, k + 1, cand, j);
      }
    }
  }

  /**
   * "Ambiguous option!" exactly when a second prefix match is reached
   * before any exact match.
   */
  lemma {:induction false} LookupLongAmbiguous(opts: seq<Opt>, name: string, k: nat, cand: Option<nat>)
    requires k <= |opts|
    requires cand.Some? ==> PrefixAt(opts, name, cand.value)
    ensures LookupLong(opts, name, k, cand) == Err(AmbiguousOption)
        <==> exists j2 :: k <= j2 < |opts| && PrefixAt(opts, name, j2)
                          && (forall m :: k <= m <= j2 ==> !ExactAt(opts, name, m))
                          && (cand.Some? || exists j1 :: k <= j1 < j2 && PrefixAt(opts, name, j1))
    decreases |opts| - k
  {
    if k < |opts| {
      if opts[k].longName == name {
        assert ExactAt(opts, name, k);
      } else if IsPrefix(name, opts[k].longName) {
        if cand.None? {
          LookupLongAmbiguous(opts, name, k + 1, Some(k));
          if LookupLong(opts, name, k + 1, Some(k)) == Err(AmbiguousOption) {
            var j2 :| k + 1 <= j2 < |opts| && PrefixAt(opts, name, j2)
                       && (forall m :: k + 1 <= m <= j2 ==> !ExactAt(opts, name, m));
            assert k < j2 && PrefixAt(opts, name, k);
          } else {
            forall j2 | k <= j2 < |opts| && PrefixAt(opts, name, j2)
                        && (forall m :: k <= m <= j2 ==> !ExactAt(opts, name, m))
              ensures !exists j1 :: k <= j1 < j2 && PrefixAt(opts, name, j1)
            {
              assert j2 != k ==> k + 1 <= j2;
            }
          }
        } else {
          assert PrefixAt(opts, name, k) && forall m :: k <= m <= k ==> !ExactAt(opts, name, m);
        }
      } else {
        LookupLongAmbiguous(opts, name, k + 1, cand);
        assert !PrefixAt(opts, name, k) && !ExactAt(opts, name, k);
        if LookupLong(opts, name, k + 1, cand) == Err(AmbiguousOption) {
          var j2 :| k + 1 <= j2 < |opts| && PrefixAt(opts, name, j2)
                     && (forall m :: k + 1 <= m <= j2 ==> !ExactAt(opts, name, m))
                     && (cand.Some? || exists j1 :: k + 1 <= j1 < j2 && PrefixAt(opts, name, j1));
          assert forall m :: k <= m <= j2 ==> !ExactAt(opts, name, m);
        } else {
          assert forall j :: k <= j < |opts| && PrefixAt(opts, name, j) ==> k + 1 <= j;
        }
      }
    }
  }

  // ---------------------------------------------------------------------
  // Collecting an option's values

  datatype Collected = Collected(values: seq<string>, next: nat)

  /** An inline value counts towards the required ones only for an option without optional values. */
  function InlineCount(o: Opt, args: seq<string>): (c: nat)
    ensures c <= 1 && (c == 1 <==> !o.optional && |args| == 1)
  {
    if !o.optional && |args| == 1 then 1 else 0
  }

  /**
   * `collect_option_arguments`: `args` holds the inline value, if any;
   * argv tokens from `pos` on are taken until the required count is met.
   * Anything but exactly the required count is an error.
   */
  function CollectArgs(o: Opt, args: seq<string>, argv: seq<string>, pos: nat): (r: Result<Collected>)
    requires pos <= |argv|
    ensures r.Ok? ==> pos <= r.value.next <= |argv|
                      && r.value.values == args + argv[pos..r.value.next]
                      && InlineCount(o, args) + (r.value.next - pos) == o.required
    ensures r.Err? <==> InlineCount(o, args) > o.required || |argv| - pos < o.required - InlineCount(o, args)
    ensures r.Err? ==> r.message == WrongNumber + o.longName
  {
    var added := InlineCount(o, args);
    var take := if o.required <= added then 0
                else if o.required - added <= |argv| - pos then o.required - added
                else |argv| - pos;
    if added + take != o.required then Err(WrongNumber + o.longName)
    else Ok(Collected(args + argv[pos..pos + take], pos + take))
  }

  /** How handling an option ends: events so far and the next argv position, or an outcome. */
  datatype Handled = Done(events: seq<Event>, next: nat) | Halt(outcome: Outcome)

  datatype Event = OptionProcessed(option: nat, reaction: Reaction) | ArgumentProcessed(slot: nat, value: string)

  datatype Outcome = Parsed(events: seq<Event>) | HelpRequested | VersionRequested | Failed(message: string)

  /** Calling `process` on option `j`: help and version end the run, the rest record an event. */
  function Fire(o: Opt, j: nat, args: seq<string>, events: seq<Event>, next: nat): (h: Handled)
    ensures h.Halt? <==> o.kind == Help || o.kind == Version
    ensures h.Halt? ==> h.outcome == (if o.kind == Help then HelpRequested else VersionRequested)
    ensures h.Done? ==> h.events == events + [OptionProcessed(j, Process(o, args))] && h.next == next
  {
    match Process(o, args)
    case SignalHelp => Halt(HelpRequested)
    case SignalVersion => Halt(VersionRequested)
    case r => Done(events + [OptionProcessed(j, r)], next)
  }

  /**
   * `collect_option_arguments` and then `process` for option `j`: a wrong
   * number of values stops the parse with its message.
   */
  function Deliver(opts: seq<Opt>, j: nat, args: seq<string>, argv: seq<string>, pos: nat, events: seq<Event>): (h: Handled)
    requires j < |opts| && pos <= |argv|
    ensures h.Done? ==> pos <= h.next <= |argv|
  {
    match CollectArgs(opts[j], args, argv, pos)
    case Err(m) => Halt(Failed(m))
    case Ok(c) => Fire(opts[j], j, c.values, events, c.next)
  }

  /**
   * `parse_long_option` on the token without its leading "--": the name
   * ends at the first '=' from the second character on, and the text
   * after that '=' is the inline value.
   */
  function LongOption(opts: seq<Opt>, arg: string, argv: seq<string>, pos: nat, events: seq<Event>): (h: Handled)
    requires |arg| >= 1 && pos <= |argv|
    ensures h.Done? ==> pos <= h.next <= |argv|
  {
    var eq := FindFirstOf(arg, "=", 1);
    match LookupLong(opts, arg[..eq], 0, None)
    case Err(m) => Halt(Failed(m))
    case Ok(j) =>
      var args := if eq < |arg| then [arg[eq + 1..]] else [];
      Deliver(opts, j, args, argv, pos, events)
  }

  /**
   * A long option written `name=v`, with no '=' in `name` after its first
   * character: `name` is looked up and `v`, whatever it holds, is its single
   * inline value.
   */
  lemma LongOptionInline(opts: seq<Opt>, name: string, v: string, argv: seq<string>, pos: nat, events: seq<Event>)
    requires |name| >= 1 && '=' !in name[1..] && pos <= |argv|
    ensures LookupLong(opts, name, 0, None).Err? ==>
              LongOption(opts, name + "=" + v, argv, pos, events) == Halt(Failed(LookupLong(opts, name, 0, None).message))
    ensures LookupLong(opts, name, 0, None).Ok? ==>
              LongOption(opts, name + "=" + v, argv, pos, events) ==
              Deliver(opts, LookupLong(opts, name, 0, None).value, [v], argv, pos, events)
  {
    var arg := name + "=" + v;
    assert forall k :: 1 <= k < |name| ==> arg[k] == name[1..][k - 1];
    FindFirstOfUnique(arg, "=", 1, |name|);
    assert arg[..|name|] == name && arg[|name| + 1..] == v;
  }

  /** A long option without '=' after its first character has no inline value. */
  lemma LongOptionBare(opts: seq<Opt>, name: string, argv: seq<string>, pos: nat, events: seq<Event>)
    requires |name| >= 1 && '=' !in name[1..] && pos <= |argv|
    ensures LookupLong(opts, name, 0, None).Err? ==>
              LongOption(opts, name, argv, pos, events) == Halt(Failed(LookupLong(opts, name, 0, None).message))
    ensures LookupLong(opts, name, 0, None).Ok? ==>
              LongOption(opts, name, argv, pos, events) == Deliver(opts, LookupLong(opts, name, 0, None).value, [], argv, pos, events)
  {
    assert forall k :: 1 <= k < |name| ==> name[k] == name[1..][k - 1];
    FindFirstOfUnique(name, "=", 1, |name|);
    assert name[..|name|] == name;
  }

  /** An option that takes no values, so that it can sit inside a short cluster. */
  predicate IsFlagLike(o: Opt)
  {
    !o.optional && o.required == 0
  }

  /**
   * `parse_short_option` on the cluster without its leading '-', from
   * character `k`: options that take no values are processed in turn; the
   * first one that does takes the rest of the cluster as inline value,
   * and the cluster ends there.
   */
  function ShortCluster(opts: seq<Opt>, cluster: string, k: nat, argv: seq<string>, pos: nat, events: seq<Event>): (h: Handled)
    requires pos <= |argv|
    ensures h.Done? ==> pos <= h.next <= |argv|
    decreases |cluster| - k
  {
    if k >= |cluster| then Done(events, pos)
    else match LookupShort(opts, cluster[k])
      case Err(m) => Halt(Failed(m))
      case Ok(j) =>
        var o := opts[j];
        if IsFlagLike(o) then
          match Fire(o, j, [], events, pos)
          case Halt(out) => Halt(out)
          case Done(ev, _) => ShortCluster(opts, cluster, k + 1, argv, pos, ev)
        else
          var args := if k + 1 < |cluster| then [cluster[k + 1..]] else [];
          Deliver(opts, j, args, argv, pos, events)
  }

  /** The events a cluster of plain value-less options records, one per character. */
  function FlagEvents(opts: seq<Opt>, cluster: string): seq<Event>
    requires forall k :: 0 <= k < |cluster| ==> LookupShort(opts, cluster[k]).Ok?
  {
    if cluster == [] then []
    else [OptionProcessed(LookupShort(opts, cluster[0]).value, Process(opts[LookupShort(opts, cluster[0]).value], []))]
         + FlagEvents(opts, cluster[1..])
  }

  /**
   * A cluster made only of value-less options other than help and version
   * processes each of them, in order, and consumes nothing from argv.
   */
  lemma {:induction false} ShortClusterFlags(opts: seq<Opt>, cluster: string, k: nat, argv: seq<string>, pos: nat, events: seq<Event>)
    requires pos <= |argv| && k <= |cluster|
    requires forall m :: 0 <= m < |cluster| ==> LookupShort(opts, cluster[m]).Ok?
    requires forall m :: k <= m < |cluster| ==>
               var o := opts[LookupShort(opts, cluster[m]).value];
               IsFlagLike(o) && o.kind != Help && o.kind != Version
    ensures ShortCluster(opts, cluster, k, argv, pos, events) == Done(events + FlagEvents(opts, cluster[k..]), pos)
    decreases |cluster| - k
  {
    if k < |cluster| {
      var j := LookupShort(opts, cluster[k]).value;
      assert cluster[k..][0] == cluster[k] && cluster[k..][1..] == cluster[k + 1..];
      var ev := events + [OptionProcessed(j, Process(opts[j], []))];
      ShortClusterFlags(opts, cluster, k + 1, argv, pos, ev);
    } else {
      assert cluster[k..] == [];
    }
  }

  /**
   * A cluster whose characters before `k` are value-less options other than
   * help and version, and whose character `k` takes values: those options
   * are processed in order, and the option at `k` gets the rest of the
   * cluster as its inline value, whatever that rest holds.
   */
  lemma {:induction false} ShortClusterHandOff(opts: seq<Opt>, cluster: string, k: nat, i: nat, argv: seq<string>, pos: nat, events: seq<Event>)
    requires pos <= |argv| && i <= k < |cluster|
    requires forall m :: 0 <= m <= k ==> LookupShort(opts, cluster[m]).Ok?
    requires forall m :: 0 <= m < k ==>
               var o := opts[LookupShort(opts, cluster[m]).value];
               IsFlagLike(o) && o.kind != Help && o.kind != Version
    requires !IsFlagLike(opts[LookupShort(opts, cluster[k]).value])
    ensures ShortCluster(opts, cluster, i, argv, pos, events) ==
              Deliver(opts, LookupShort(opts, cluster[k]).value,
                      if k + 1 < |cluster| then [cluster[k + 1..]] else [],
                      argv, pos, events + FlagEvents(opts, cluster[i..k]))
    decreases k - i
  {
    if i == k {
      assert cluster[i..k] == [];
      assert events + [] == events;
    } else {
      var j := LookupShort(opts, cluster[i]).value;
      var e := OptionProcessed(j, Process(opts[j], []));
      assert cluster[i..k][0] == cluster[i] && cluster[i..k][1..] == cluster[i + 1..k];
      assert FlagEvents(opts, cluster[i..k]) == [e] + FlagEvents(opts, cluster[i + 1..k]);
      ShortClusterHandOff(opts, cluster, k, i + 1, argv, pos, events + [e]);
      assert events + [e] + FlagEvents(opts, cluster[i + 1..k]) == events + FlagEvents(opts, cluster[i..k]);
    }
  }

  // ---------------------------------------------------------------------
  // The argv walk

  /**
   * Where `parse` is: the next argv position, whether options are still
   * recognised, the current positional slot and how many tokens it has.
   */
  datatype Cursor = Cursor(pos: nat, processing: bool, slot: nat, count: nat, events: seq<Event>)

  datatype Step = Continue(cursor: Cursor) | Stop(outcome: Outcome)

  /** One token of `parse`'s loop. */
  function ParseStep(opts: seq<Opt>, arguments: seq<Argument>, argv: seq<string>, c: Cursor): (s: Step)
    requires c.pos < |argv|
    ensures s.Continue? ==> c.pos < s.cursor.pos <= |argv|
  {
    var arg := argv[c.pos];
    var next := c.pos + 1;
    if c.processing && IsEndOfOptions(arg) then Continue(c.(pos := next, processing := false))
    else if c.processing && IsShortOption(arg) then
      match ShortCluster(opts, arg[1..], 0, argv, next, c.events)
      case Halt(out) => Stop(out)
      case Done(ev, p) => Continue(c.(pos := p, events := ev))
    else if c.processing && IsLongOption(arg) then
      match LongOption(opts, arg[2..], argv, next, c.events)
      case Halt(out) => Stop(out)
      case Done(ev, p) => Continue(c.(pos := p, events := ev))
    else if c.slot < |arguments| then
      var events := c.events + [ArgumentProcessed(c.slot, arg)];
      if arguments[c.slot].maxArgs == c.count + 1 then Continue(Cursor(next, c.processing, c.slot + 1, 0, events))
      else Continue(Cursor(next, c.processing, c.slot, c.count + 1, events))
    else Stop(Failed(TooManyOrTooFew))
  }

  /** After the last token: only the current slot is checked against its minimum. */
  function Finish(arguments: seq<Argument>, c: Cursor): (out: Outcome)
    ensures out.Failed? <==> c.slot < |arguments| && c.count < arguments[c.slot].minArgs
    ensures out.Parsed? ==> out.events == c.events
  {
    if c.slot < |arguments| && c.count < arguments[c.slot].minArgs then Failed(TooManyOrTooFew)
    else Parsed(c.events)
  }

  function ParseFrom(opts: seq<Opt>, arguments: seq<Argument>, argv: seq<string>, c: Cursor): Outcome
    requires c.pos <= |argv|
    decreases |argv| - c.pos
  {
    if c.pos == |argv| then Finish(arguments, c)
    else match ParseStep(opts, arguments, argv, c)
      case Stop(out) => out
      case Continue(c') => ParseFrom(opts, arguments, argv, c')
  }

  /** `parse`: skips argv[0] and starts with options recognised and the first slot empty. */
  function ParseOutcome(opts: seq<Opt>, arguments: seq<Argument>, argv: seq<string>): Outcome
    requires |argv| >= 1
  {
    ParseFrom(opts, arguments, argv, Cursor(1, true, 0, 0, []))
  }

  /** Positional tokens only: fill the slots in order, moving on at each slot's maximum. */
  function FillSlots(arguments: seq<Argument>, tokens: seq<string>, slot: nat, count: nat, events: seq<Event>): Outcome
    decreases |tokens|
  {
    if tokens == [] then Finish(arguments, Cursor(0, false, slot, count, events))
    else if slot < |arguments| then
      var ev := events + [ArgumentProcessed(slot, tokens[0])];
      if arguments[slot].maxArgs == count + 1 then FillSlots(arguments, tokens[1..], slot + 1, 0, ev)
      else FillSlots(arguments, tokens[1..], slot, count + 1, ev)
    else Failed(TooManyOrTooFew)
  }

  /** After "--" every token is positional, whatever it looks like. */
  lemma {:induction false} AfterEndAllPositional(opts: seq<Opt>, arguments: seq<Argument>, argv: seq<string>,
                                                 pos: nat, slot: nat, count: nat, events: seq<Event>)
    requires pos <= |argv|
    ensures ParseFrom(opts, arguments, argv, Cursor(pos, false, slot, count, events))
         == FillSlots(arguments, argv[pos..], slot, count, events)
    decreases |argv| - pos
  {
    if pos < |argv| {
      assert argv[pos..][0] == argv[pos] && argv[pos..][1..] == argv[pos + 1..];
      if slot < |arguments| {
        var ev := events + [ArgumentProcessed(slot, argv[pos])];
        if arguments[slot].maxArgs == count + 1 {
          AfterEndAllPositional(opts, arguments, argv, pos + 1, slot + 1, 0, ev);
        } else {
          AfterEndAllPositional(opts, arguments, argv, pos + 1, slot, count + 1, ev);
        }
      }
    } else {
      assert argv[pos..] == [];
    }
  }

  /** The events of tokens placed in consecutive one-token slots from `slot` on. */
  function SlotEvents(slot: nat, tokens: seq<string>): (ev: seq<Event>)
    ensures |ev| == |tokens|
    ensures forall k :: 0 <= k < |tokens| ==> ev[k] == ArgumentProcessed(slot + k, tokens[k])
    decreases |tokens|
  {
    if tokens == [] then [] else [ArgumentProcessed(slot, tokens[0])] + SlotEvents(slot + 1, tokens[1..])
  }

  /**
   * With store arguments only (one token each), positional tokens succeed
   * exactly when there is one per remaining slot, each going to its slot.
   */
  lemma {:induction false} OneTokenSlots(arguments: seq<Argument>, tokens: seq<string>, slot: nat, events: seq<Event>)
    requires slot <= |arguments|
    requires forall a :: a in arguments ==> a.minArgs == 1 && a.maxArgs == 1
    ensures FillSlots(arguments, tokens, slot, 0, events)
         == if |tokens| == |arguments| - slot then Parsed(events + SlotEvents(slot, tokens)) else Failed(TooManyOrTooFew)
    decreases |tokens|
  {
    if tokens == [] {
      if slot < |arguments| {
        assert arguments[slot] in arguments;
      }
    } else if slot < |arguments| {
      assert arguments[slot] in arguments;
      var ev := events + [ArgumentProcessed(slot, tokens[0])];
      OneTokenSlots(arguments, tokens[1..], slot + 1, ev);
      assert events + SlotEvents(slot, tokens) == ev + SlotEvents(slot + 1, tokens[1..]);
    }
  }

  /** Only the current slot's minimum is checked at the end: a later slot may stay empty. */
  lemma LaterSlotsUnchecked()
    ensures FillSlots([Argument("a", "", 0, 2), StoreArgument("b", "")], [], 0, 0, []) == Parsed([])
  {
  }

  // ---------------------------------------------------------------------
  // Usage and help text

  /** A count appended to a `std::string`: it becomes the character with that code. */
  function CountChar(k: nat): (c: char)
    ensures c as int == k % 256
  {
    (k % 256) as char
  }

  /** `argument::get_usage`. */
  function Usage(a: Argument): (r: string)
    ensures a.minArgs == a.maxArgs ==> r == a.name
    ensures a.minArgs != a.maxArgs && a.minArgs == 0 && a.maxArgs == SizeMax ==> r == "[" + a.name + "]*"
    ensures a.minArgs != a.maxArgs && !(a.minArgs == 0 && a.maxArgs == SizeMax) ==>
              |r| == |a.name| + (if a.minArgs == 0 then 2 else 0) + 3
                     + (if a.minArgs != 0 then 1 else 0) + (if a.maxArgs != SizeMax then 1 else 0)
              && r[|r| - 1] == '}'
  {
    if a.minArgs == a.maxArgs then a.name
    else if a.minArgs == 0 && a.maxArgs == SizeMax then "[" + a.name + "]*"
    else
      (if a.minArgs == 0 then "[" + a.name + "]" else a.name) + "{"
      + (if a.minArgs != 0 then [CountChar(a.minArgs)] else "") + ","
      + (if a.maxArgs != SizeMax then [CountChar(a.maxArgs)] else "") + "}"
  }

  /** Counts show as one character each, not as decimal digits. */
  lemma UsageCountsAsCharacters()
    ensures Usage(Argument("file", "", 1, 10)) == "file{\U{0001},\n}"
    ensures Usage(Argument("file", "", 0, 2)) == "[file]{,\U{0002}}"
  {
  }

  /**
   * `argument::get_usage` as written: when the counts are equal it loops
   * from the minimum to the maximum, appending the name once.
   */
  method GetUsage(a: Argument) returns (usage: string)
    requires a.maxArgs <= SizeMax
    requires !(a.minArgs == a.maxArgs == SizeMax)
    ensures usage == Usage(a)
  {
    usage := "";
    if a.minArgs == a.maxArgs {
      var i := a.minArgs;
      while i <= a.maxArgs
        invariant a.minArgs <= i <= a.maxArgs + 1
        invariant usage == if i == a.minArgs then "" else a.name
        decreases a.maxArgs + 1 - i
      {
        if i != a.minArgs {
          usage := usage + " ";
        }
        usage := usage + a.name;
        i := i + 1;
      }
    } else if a.minArgs == 0 && a.maxArgs == SizeMax {
      usage := "[" + a.name + "]*";
    } else {
      if a.minArgs == 0 {
        usage := "[" + a.name + "]";
      } else {
        usage := a.name;
      }
      usage := usage + "{";
      if a.minArgs != 0 {
        usage := usage + [CountChar(a.minArgs)];
      }
      usage := usage + ",";
      if a.maxArgs != SizeMax {
        usage := usage + [CountChar(a.maxArgs)];
      }
      usage := usage + "}";
    }
  }

  function ShortPart(o: Opt): string
  {
    if o.shortName != NoShortName then "-" + [o.shortName] else Spaces(4)
  }

  function LongPart(o: Opt): string
  {
    if o.longName != "" then (if o.shortName != NoShortName then ", " else "") + "--" + o.longName else ""
  }

  function ValuePart(o: Opt): string
  {
    if o.optional || o.required > 0 then (if o.longName == "" then o.argName else "=" + o.argName) else ""
  }

  /** The option column of `option::get_help`: names and value placeholder. */
  function HelpHead(o: Opt): (r: string)
    ensures |r| >= 4 && r[..2] == "  "
    ensures o.shortName != NoShortName ==> r[2..4] == ['-', o.shortName]
    ensures o.shortName == NoShortName ==> |r| >= 6 && r[2..6] == "    "
  {
    "  " + ShortPart(o) + LongPart(o) + ValuePart(o)
  }

  /**
   * The head padded to the description column `cw`, or followed by four
   * spaces when it is already that wide: the description never touches it.
   */
  function HelpColumn(head: string, cw: nat): (r: string)
    ensures |r| > |head| && r[..|head|] == head && |r| >= cw
    ensures forall k :: |head| <= k < |r| ==> r[k] == ' '
    ensures |head| < cw ==> |r| == cw
    ensures |head| >= cw ==> |r| == |head| + 4
  {
    if |head| < cw then Ljust(head, cw) else head + Spaces(4)
  }

  /** `option::get_help`: the column, then the description wrapped to `lw` and indented by `cw`. */
  method OptionHelp(o: Opt, cw: nat, lw: nat) returns (help: string)
    ensures help == WrapText(o.description, lw, HelpColumn(HelpHead(o), cw), Spaces(cw))
  {
    var ret := "  ";
    if o.shortName != NoShortName {
      ret := ret + "-" + [o.shortName];
    } else {
      ret := ret + Spaces(4);
    }
    assert ret == "  " + ShortPart(o);
    if o.longName != "" {
      if o.shortName != NoShortName {
        ret := ret + ", ";
      }
      ret := ret + "--" + o.longName;
    }
    assert ret == "  " + ShortPart(o) + LongPart(o);
    if o.optional || o.required > 0 {
      if o.longName == "" {
        ret := ret + o.argName;
      } else {
        ret := ret + "=" + o.argName;
      }
    }
    assert ret == HelpHead(o);
    if |ret| < cw {
      ret := Ljust(ret, cw);
    } else {
      ret := ret + Spaces(4);
    }
    help := Fill(o.description, lw, ret, Spaces(cw));
  }

  /**
   * `argument::get_help`: the name in the column, then the description; an
   * argument without description has its column text wrapped to `cw`.
   */
  method ArgumentHelp(a: Argument, cw: nat, lw: nat) returns (help: string)
    ensures a.description == "" ==> help == WrapText(HelpColumn("  " + a.name, cw), cw, "  ", "  ")
    ensures a.description != "" ==> help == WrapText(a.description, lw, HelpColumn("  " + a.name, cw), Spaces(cw))
  {
    var ret := "  " + a.name;
    if |ret| < cw {
      ret := Ljust(ret, cw);
    } else {
      ret := ret + Spaces(4);
    }
    if a.description == "" {
      help := Fill(ret, cw, "  ", "  ");
    } else {
      help := Fill(a.description, lw, ret, Spaces(cw));
    }
  }

  // ---------------------------------------------------------------------
  // The parser

  class Parser {
    var name: string
    var description: string
    var usage: string
    var version: string
    var options: seq<Opt>
    var arguments: seq<Argument>

    /** Registers help ('?', "help") and then version ('v', "version") before anything else. */
    constructor(name: string, description: string, usage: string := "", version: string := "")
      ensures this.name == name && this.description == description
      ensures this.usage == usage && this.version == version
      ensures options == [HelpOption('?', "help"), VersionOption('v', "version")]
      ensures arguments == []
    {
      this.name := name;
      this.description := description;
      this.usage := usage;
      this.version := version;
      options := [HelpOption('?', "help"), VersionOption('v', "version")];
      arguments := [];
    }

    method AddOption(o: Opt)
      modifies this`options
      ensures options == old(options) + [o]
    {
      options := options + [o];
    }

    method AddArgument(a: Argument)
      modifies this`arguments
      ensures arguments == old(arguments) + [a]
    {
      arguments := arguments + [a];
    }

    method AddStoreOption(shortName: char, longName: string, description: string,
                          argName: string := "", optional: bool := false)
      modifies this`options
      ensures options == old(options) + [StoreOption(shortName, longName, description, argName, optional)]
    {
      AddOption(StoreOption(shortName, longName, description, argName, optional));
    }

    method AddBoolOption(shortName: char, longName: string, description: string,
                         argName: string := "", optional: bool := true, val: bool := true)
      modifies this`options
      ensures options == old(options) + [BoolOption(shortName, longName, description, argName, optional, val)]
    {
      AddOption(BoolOption(shortName, longName, description, argName, optional, val));
    }

    method AddStoreArgument(name: string, description: string)
      modifies this`arguments
      ensures arguments == old(arguments) + [StoreArgument(name, description)]
    {
      AddArgument(StoreArgument(name, description));
    }

    /** `find(char)`. */
    method FindShort(c: char) returns (r: Result<nat>)
      ensures r == LookupShort(options, c)
    {
      for k := 0 to |options|
        invariant LookupShort(options, c, k) == LookupShort(options, c)
      {
        if options[k].shortName == c {
          return Ok(k);
        }
      }
      r := Err(InvalidOption);
    }

    /** `find(string)`. */
    method FindLong(name: string) returns (r: Result<nat>)
      ensures r == LookupLong(options, name, 0, None)
    {
      var cand: Option<nat> := None;
      var k := 0;
      while k < |options|
        invariant 0 <= k <= |options|
        invariant cand.Some? ==> PrefixAt(options, name, cand.value)
        invariant LookupLong(options, name, k, cand) == LookupLong(options, name, 0, None)
      {
        if options[k].longName == name {
          return Ok(k);
        }
        var prefix := StartsWith(options[k].longName, name);
        if prefix {
          if cand.None? {
            cand := Some(k);
          } else {
            return Err(AmbiguousOption);
          }
        }
        k := k + 1;
      }
      if cand.None? {
        return Err(InvalidOption);
      }
      r := Ok(cand.value);
    }

    /** `collect_option_arguments`. */
    method Collect(o: Opt, args: seq<string>, argv: seq<string>, pos: nat) returns (r: Result<Collected>)
      requires pos <= |argv|
      ensures r == CollectArgs(o, args, argv, pos)
    {
      var values := args;
      var begin := pos;
      var added := 0;
      if !o.optional && |args| == 1 {
        added := 1;
      }
      while added < o.required && begin != |argv|
        invariant pos <= begin <= |argv|
        invariant added == InlineCount(o, args) + (begin - pos)
        invariant begin == pos || added <= o.required
        invariant values == args + argv[pos..begin]
        decreases |argv| - begin
      {
        values := values + [argv[begin]];
        begin := begin + 1;
        added := added + 1;
      }
      if added != o.required {
        return Err(WrongNumber + o.longName);
      }
      r := Ok(Collected(values, begin));
    }

    /** `parse_long_option`, on the token without its leading "--". */
    method ParseLong(arg: string, argv: seq<string>, pos: nat, events: seq<Event>) returns (h: Handled)
      requires |arg| >= 1 && pos <= |argv|
      ensures h == LongOption(options, arg, argv, pos, events)
    {
      var eq := 1;
      while eq != |arg| && arg[eq] != '='
        invariant 1 <= eq <= |arg|
        invariant FindFirstOf(arg, "=", eq) == FindFirstOf(arg, "=", 1)
        decreases |arg| - eq
      {
        eq := eq + 1;
      }
      var found := FindLong(arg[..eq]);
      if found.Err? {
        return Halt(Failed(found.message));
      }
      var j := found.value;
      var args := [];
      if eq != |arg| {
        args := [arg[eq + 1..]];
      }
      var collected := Collect(options[j], args, argv, pos);
      if collected.Err? {
        return Halt(Failed(collected.message));
      }
      h := Fire(options[j], j, collected.value.values, events, collected.value.next);
    }

    /** `parse_short_option`, on the cluster without its leading '-'. */
    method ParseShort(cluster: string, argv: seq<string>, pos: nat, events: seq<Event>) returns (h: Handled)
      requires pos <= |argv|
      ensures h == ShortCluster(options, cluster, 0, argv, pos, events)
    {
      var ev := events;
      var k := 0;
      while k < |cluster|
        invariant 0 <= k <= |cluster|
        invariant ShortCluster(options, cluster, k, argv, pos, ev) == ShortCluster(options, cluster, 0, argv, pos, events)
        decreases |cluster| - k
      {
        var found := FindShort(cluster[k]);
        if found.Err? {
          return Halt(Failed(found.message));
        }
        var j := found.value;
        var o := options[j];
        if IsFlagLike(o) {
          var fired := Fire(o, j, [], ev, pos);
          if fired.Halt? {
            return fired;
          }
          ev := fired.events;
          k := k + 1;
        } else {
          var args := [];
          if k + 1 < |cluster| {
            args := [cluster[k + 1..]];
          }
          var collected := Collect(o, args, argv, pos);
          if collected.Err? {
            return Halt(Failed(collected.message));
          }
          return Fire(o, j, collected.value.values, ev, collected.value.next);
        }
      }
      h := Done(ev, pos);
    }

    /**
     * `parse`: walks argv after the program name. Help, version and every
     * error end the walk with that outcome.
     */
    method Parse(argv: seq<string>) returns (out: Outcome)
      requires |argv| >= 1
      ensures out == ParseOutcome(options, arguments, argv)
    {
      var c := Cursor(1, true, 0, 0, []);
      while c.pos != |argv|
        invariant c.pos <= |argv|
        invariant ParseFrom(options, arguments, argv, c) == ParseOutcome(options, arguments, argv)
        decreases |argv| - c.pos
      {
        var s := ParseToken(argv, c);
        if s.Stop? {
          return s.outcome;
        }
        c := s.cursor;
      }
      if c.slot < |arguments| && c.count < arguments[c.slot].minArgs {
        return Failed(TooManyOrTooFew);
      }
      out := Parsed(c.events);
    }

    /** The body of `parse`'s loop for the token at `c.pos`. */
    method ParseToken(argv: seq<string>, c: Cursor) returns (s: Step)
      requires c.pos < |argv|
      ensures s == ParseStep(options, arguments, argv, c)
    {
      var arg := argv[c.pos];
      var next := c.pos + 1;
      if c.processing && IsEndOfOptions(arg) {
        s := Continue(c.(pos := next, processing := false));
      } else if c.processing && IsShortOption(arg) {
        var h := ParseShort(arg[1..], argv, next, c.events);
        s := if h.Halt? then Stop(h.outcome) else Continue(c.(pos := h.next, events := h.events));
      } else if c.processing && IsLongOption(arg) {
        var h := ParseLong(arg[2..], argv, next, c.events);
        s := if h.Halt? then Stop(h.outcome) else Continue(c.(pos := h.next, events := h.events));
      } else if c.slot < |arguments| {
        var events := c.events + [ArgumentProcessed(c.slot, arg)];
        var count := c.count + 1;
        if arguments[c.slot].maxArgs == count {
          s := Continue(Cursor(next, c.processing, c.slot + 1, 0, events));
        } else {
          s := Continue(Cursor(next, c.processing, c.slot, count, events));
        }
      } else {
        s := Stop(Failed(TooManyOrTooFew));
      }
    }
  }

  // ---------------------------------------------------------------------
  // What a freshly constructed parser does with help

  predicate StartsWithHelp(opts: seq<Opt>)
  {
    |opts| >= 1 && opts[0] == HelpOption('?', "help")
  }

  /** "--help" and "-?" as the first token end the parse with help, whatever follows. */
  lemma HelpFirst(opts: seq<Opt>, arguments: seq<Argument>, prog: string, rest: seq<string>)
    requires StartsWithHelp(opts)
    ensures ParseOutcome(opts, arguments, [prog, "--help"] + rest) == HelpRequested
    ensures ParseOutcome(opts, arguments, [prog, "-?"] + rest) == HelpRequested
  {
    var argv := [prog, "--help"] + rest;
    assert argv[1] == "--help" && argv[1][2..] == "help";
    assert FindFirstOf("help", "=", 1) == 4;
    assert "help"[..4] == "help";
    var argv' := [prog, "-?"] + rest;
    assert argv'[1] == "-?" && argv'[1][1..] == "?";
  }

  /** Help takes no value, so "--help=x" is an error rather than a request for help. */
  lemma HelpWithValue(opts: seq<Opt>, arguments: seq<Argument>, prog: string, rest: seq<string>)
    requires StartsWithHelp(opts)
    ensures ParseOutcome(opts, arguments, [prog, "--help=x"] + rest) == Failed(WrongNumber + "help")
  {
    var argv := [prog, "--help=x"] + rest;
    assert argv[1] == "--help=x" && argv[1][2..] == "help=x";
    assert FindFirstOf("help=x", "=", 1) == 4;
    assert "help=x"[..4] == "help" && "help=x"[5..] == "x";
  }

  // ---------------------------------------------------------------------
  // The configuration of random-lines

  /** help, version, then -n/--num and -N/--max with optional values, and -s/--seed. */
  function RandomLinesOptions(): seq<Opt>
  {
    [HelpOption('?', "help"), VersionOption('v', "version"),
     StoreOption('n', "num", "number of lines to return", "1", true),
     StoreOption('N', "max", "total lines in the file", "4294967295", true),
     StoreOption('s', "seed", "seed for random number generator")]
  }

  /** The parser random-lines builds before parsing its argv. */
  method RandomLinesParser() returns (p: Parser)
    ensures fresh(p) && p.options == RandomLinesOptions() && p.arguments == []
  {
    p := new Parser("random-lines", "output random lines", "");
    p.AddStoreOption('n', "num", "number of lines to return", "1", true);
    p.AddStoreOption('N', "max", "total lines in the file", "4294967295", true);
    p.AddStoreOption('s', "seed", "seed for random number generator");
  }

  /**
   * An optional value is taken only from the same token: "-n5" and
   * "--num=5" set the count, while in "-n 5" the "5" is a positional
   * token, for which random-lines has no slot.
   */
  lemma NumInCluster()
    ensures ParseOutcome(RandomLinesOptions(), [], ["random-lines", "-n5"]) == Parsed([OptionProcessed(2, Assign("5"))])
  {
    var opts := RandomLinesOptions();
    var argv := ["random-lines", "-n5"];
    assert argv[1][1..] == "n5" && "n5"[1..] == "5";
    assert LookupShort(opts, 'n') == Ok(2);
    assert argv[2..2] == [] && ["5"] + [] == ["5"];
    assert CollectArgs(opts[2], ["5"], argv, 2) == Ok(Collected(["5"], 2));
    assert ShortCluster(opts, "n5", 0, argv, 2, []) == Done([OptionProcessed(2, Assign("5"))], 2);
    assert ParseStep(opts, [], argv, Cursor(1, true, 0, 0, [])) == Continue(Cursor(2, true, 0, 0, [OptionProcessed(2, Assign("5"))]));
  }

  lemma NumAfterEquals()
    ensures ParseOutcome(RandomLinesOptions(), [], ["random-lines", "--num=5"]) == Parsed([OptionProcessed(2, Assign("5"))])
  {
    var opts := RandomLinesOptions();
    var argv := ["random-lines", "--num=5"];
    assert argv[1][2..] == "num=5" && FindFirstOf("num=5", "=", 1) == 3;
    assert "num=5"[..3] == "num" && "num=5"[4..] == "5";
    assert LookupLong(opts, "num", 0, None) == Ok(2);
    assert argv[2..2] == [] && ["5"] + [] == ["5"];
    assert CollectArgs(opts[2], ["5"], argv, 2) == Ok(Collected(["5"], 2));
    assert LongOption(opts, "num=5", argv, 2, []) == Done([OptionProcessed(2, Assign("5"))], 2);
    assert ParseStep(opts, [], argv, Cursor(1, true, 0, 0, [])) == Continue(Cursor(2, true, 0, 0, [OptionProcessed(2, Assign("5"))]));
  }

  lemma NumNotFromNextToken()
    ensures ParseOutcome(RandomLinesOptions(), [], ["random-lines", "-n", "5"]) == Failed(TooManyOrTooFew)
  {
    var opts := RandomLinesOptions();
    var argv := ["random-lines", "-n", "5"];
    assert argv[1][1..] == "n";
    assert LookupShort(opts, 'n') == Ok(2);
    assert argv[2..2] == [];
    assert CollectArgs(opts[2], [], argv, 2) == Ok(Collected([], 2));
    assert ShortCluster(opts, "n", 0, argv, 2, []) == Done([OptionProcessed(2, Unchanged)], 2);
    var c := Cursor(2, true, 0, 0, [OptionProcessed(2, Unchanged)]);
    assert ParseStep(opts, [], argv, Cursor(1, true, 0, 0, [])) == Continue(c);
    assert !IsShortOption(argv[2]) && !IsLongOption(argv[2]) && !IsEndOfOptions(argv[2]);
    assert ParseStep(opts, [], argv, c) == Stop(Failed(TooManyOrTooFew));
  }

  /** The seed requires a value: the next token is taken, and none left is an error. */
  lemma SeedTakesNextToken()
    ensures ParseOutcome(RandomLinesOptions(), [], ["random-lines", "-s", "42"]) == Parsed([OptionProcessed(4, Assign("42"))])
  {
    var opts := RandomLinesOptions();
    var argv := ["random-lines", "-s", "42"];
    assert argv[1][1..] == "s";
    assert LookupShort(opts, 's') == Ok(4);
    assert argv[2..3] == ["42"] && [] + ["42"] == ["42"];
    assert CollectArgs(opts[4], [], argv, 2) == Ok(Collected(["42"], 3));
    assert ShortCluster(opts, "s", 0, argv, 2, []) == Done([OptionProcessed(4, Assign("42"))], 3);
    assert ParseStep(opts, [], argv, Cursor(1, true, 0, 0, [])) == Continue(Cursor(3, true, 0, 0, [OptionProcessed(4, Assign("42"))]));
  }

  lemma SeedMissing()
    ensures ParseOutcome(RandomLinesOptions(), [], ["random-lines", "-s"]) == Failed(WrongNumber + "seed")
  {
    var opts := RandomLinesOptions();
    var argv := ["random-lines", "-s"];
    assert argv[1][1..] == "s";
    assert LookupShort(opts, 's') == Ok(4);
    assert CollectArgs(opts[4], [], argv, 2) == Err(WrongNumber + "seed");
    assert ParseStep(opts, [], argv, Cursor(1, true, 0, 0, [])) == Stop(Failed(WrongNumber + "seed"));
  }

  lemma FirstCharDiffers(p: string, s: string)
    requires |p| >= 1 && |s| >= 1 && p[0] != s[0]
    ensures !IsPrefix(p, s)
  {
    if |p| <= |s| {
      assert s[..|p|][0] == s[0];
    }
  }

  /** "se" starts only the long name "seed". */
  lemma SeedPrefixUnique()
    ensures LookupLong(RandomLinesOptions(), "se", 0, None) == Ok(4)
  {
    var opts := RandomLinesOptions();
    FirstCharDiffers("se", "help");
    FirstCharDiffers("se", "version");
    FirstCharDiffers("se", "num");
    FirstCharDiffers("se", "max");
    assert forall m :: 0 <= m < |opts| && m != 4 ==> !PrefixAt(opts, "se", m);
    LookupLongUnique(opts, "se", 0, 4);
  }

  /** A unique prefix of a long name selects that option. */
  lemma SeedByPrefix()
    ensures ParseOutcome(RandomLinesOptions(), [], ["random-lines", "--se=7"]) == Parsed([OptionProcessed(4, Assign("7"))])
  {
    var opts := RandomLinesOptions();
    var argv := ["random-lines", "--se=7"];
    assert argv[1][2..] == "se=7" && FindFirstOf("se=7", "=", 1) == 2;
    assert "se=7"[..2] == "se" && "se=7"[3..] == "7";
    SeedPrefixUnique();
    assert argv[2..2] == [] && ["7"] + [] == ["7"];
    assert CollectArgs(opts[4], ["7"], argv, 2) == Ok(Collected(["7"], 2));
    assert LongOption(opts, "se=7", argv, 2, []) == Done([OptionProcessed(4, Assign("7"))], 2);
    assert ParseStep(opts, [], argv, Cursor(1, true, 0, 0, [])) == Continue(Cursor(2, true, 0, 0, [OptionProcessed(4, Assign("7"))]));
  }
}
