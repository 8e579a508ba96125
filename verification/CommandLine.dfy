/**
 `split_commandline`: options of the table go to the global list or to the group
 of the file they precede; a separator or a bare argument closes a group.  The
 codec and format options that `opt_default` judges are an oracle, and the
 dictionaries it fills are kept as the list of accepted pairs.
 */
module CommandLine {
  import opened Basics

  datatype OptionDef = OptionDef(name: string, hasArg: bool, isBool: bool, exits: bool,
                                 perFile: bool, spec: bool, offset: bool)

  datatype GroupDef = GroupDef(name: string, sep: Option<string>)

  datatype Verdict = Accepted | NotFound | Rejected(code: int)

  datatype Config = Config(options: seq<OptionDef>, groups: seq<GroupDef>, avOption: (string, string) -> Verdict)

  /** An option with its key as written and its value; an exiting option may have none. */
  datatype Opt = Opt(def: OptionDef, key: string, val: Option<string>)

  datatype Pair = Pair(key: string, val: string)

  datatype Group = Group(opts: seq<Opt>, av: seq<Pair>, arg: string)

  datatype Error = MissingArgument(key: string) | BadValue(code: int) | Unrecognized(key: string)

  // ----- Looking up -----

  function UpToColon(name: string): (r: string)
    ensures r <= name && ':' !in r
    ensures |r| < |name| ==> name[|r|] == ':'
  {
    if name == "" || name[0] == ':' then "" else [name[0]] + UpToColon(name[1..])
  }

  /** `find_option`: the first entry named like the part before a colon; the table's length if there is none. */
  function FindOption(options: seq<OptionDef>, name: string): (i: nat)
    ensures i <= |options|
    ensures i < |options| ==> options[i].name == UpToColon(name)
    ensures forall j :: 0 <= j < i ==> options[j].name != UpToColon(name)
  {
    if options == [] || options[0].name == UpToColon(name) then 0 else 1 + FindOption(options[1..], name)
  }

  /** `match_group_separator`: the first group with this separator; the number of groups if there is none. */
  function MatchSeparator(groups: seq<GroupDef>, key: string): (i: nat)
    ensures i <= |groups|
    ensures i < |groups| ==> groups[i].sep == Some(key)
    ensures forall j :: 0 <= j < i ==> groups[j].sep != Some(key)
  {
    if groups == [] || groups[0].sep == Some(key) then 0 else 1 + MatchSeparator(groups[1..], key)
  }

  predicate IsGlobal(def: OptionDef) { !def.perFile && !def.spec && !def.offset }

  // ----- The grammar -----

  /** What stretches of the command line mean; `own` tells a value that is an argument of its own. */
  datatype Item = EndMarker
                | Close(group: nat, sep: Option<string>, arg: string)
                | Table(opt: Opt, own: bool)
                | Av(pair: Pair)

  /** The arguments an item is written as. */
  function Tokens(item: Item): (r: seq<string>)
    ensures |r| >= 1
  {
    match item
    case EndMarker => ["--"]
    case Close(_, None, arg) => [arg]
    case Close(_, Some(sep), arg) => ["-" + sep, arg]
    case Table(opt, own) => ["-" + opt.key] + if own && opt.val.Some? then [opt.val.value] else []
    case Av(pair) => ["-" + pair.key, pair.val]
  }

  datatype First = Is(item: Item) | Fails(error: Error)

  /** A table option other than a `-no` one. */
  function TableItem(def: OptionDef, key: string, next: Option<string>): First {
    if def.exits then Is(Table(Opt(def, key, next), next.Some?))
    else if def.hasArg then
      if next.None? then Fails(MissingArgument(key)) else Is(Table(Opt(def, key, next), true))
    else Is(Table(Opt(def, key, Some("1")), false))
  }

  /** `-nofoo` for a boolean `foo`. */
  function NegatedItem(cfg: Config, key: string): First {
    if "no" <= key then
      var i := FindOption(cfg.options, key[2..]);
      if i < |cfg.options| && cfg.options[i].isBool then Is(Table(Opt(cfg.options[i], key, Some("0")), false))
      else Fails(Unrecognized(key))
    else Fails(Unrecognized(key))
  }

  /** What is left when neither a separator nor the table knows the key. */
  function OtherItem(cfg: Config, key: string, next: Option<string>): First {
    if next.None? then NegatedItem(cfg, key)
    else
      match cfg.avOption(key, next.value)
      case Accepted => Is(Av(Pair(key, next.value)))
      case Rejected(code) => Fails(BadValue(code))
      case NotFound => NegatedItem(cfg, key)
  }

  function DashItem(cfg: Config, key: string, next: Option<string>): First {
    var g, i := MatchSeparator(cfg.groups, key), FindOption(cfg.options, key);
    if g < |cfg.groups| then
      if next.None? then Fails(MissingArgument(key)) else Is(Close(g, Some(key), next.value))
    else if i < |cfg.options| then TableItem(cfg.options[i], key, next)
    else OtherItem(cfg, key, next)
  }

  function FirstItem(cfg: Config, args: seq<string>, marked: bool): (r: First)
    requires args != []
    ensures r.Is? ==> Tokens(r.item) <= args
  {
    var word, next := args[0], if |args| > 1 then Some(args[1]) else None;
    if word == "--" then Is(EndMarker)
    else if word == "" || word[0] != '-' || |word| == 1 || marked then Is(Close(0, None, word))
    else
      assert word == "-" + word[1..];
      DashItem(cfg, word[1..], next)
  }

  datatype Parsed = Parsed(items: seq<Item>, error: Option<Error>)

  function Parse(cfg: Config, args: seq<string>, marked: bool): Parsed
    decreases |args|
  {
    if args == [] then Parsed([], None)
    else
      match FirstItem(cfg, args, marked)
      case Fails(e) => Parsed([], Some(e))
      case Is(item) =>
        var rest := Parse(cfg, args[|Tokens(item)|..], item.EndMarker?);
        Parsed([item] + rest.items, rest.error)
  }

  function AllTokens(items: seq<Item>): seq<string> {
    if items == [] then [] else Tokens(items[0]) + AllTokens(items[1..])
  }

  /** No argument is used twice or skipped: the items spell out the arguments, all of them unless there is an error. */
  lemma {:induction false} ItemsSpellArguments(cfg: Config, args: seq<string>, marked: bool)
    ensures AllTokens(Parse(cfg, args, marked).items) <= args
    ensures Parse(cfg, args, marked).error.None? ==> AllTokens(Parse(cfg, args, marked).items) == args
    decreases |args|
  {
    hide FirstItem, Tokens;
    if args != [] && FirstItem(cfg, args, marked).Is? {
      var item := FirstItem(cfg, args, marked).item;
      var tokens := Tokens(item);
      ItemsSpellArguments(cfg, args[|tokens|..], item.EndMarker?);
      var rest := Parse(cfg, args[|tokens|..], item.EndMarker?).items;
      assert ([item] + rest)[1..] == rest;
      assert args == tokens + args[|tokens|..];
    }
  }

  function Head(args: seq<string>): Option<string> { if args == [] then None else Some(args[0]) }

  /** A key that follows a dash and is neither empty nor makes "--". */
  predicate Key(key: string) { key != "" && key != "-" }

  /** An option of the table with its value, or without one: an exiting option only at the very end. */
  predicate ProperOption(def: OptionDef, val: Option<string>, own: bool, next: Option<string>) {
    if def.exits && val.None? then !own && next.None?
    else if def.exits || def.hasArg then own && val.Some?
    else !own && val == Some("1")
  }

  /** An item written so that the rules above take it for what it is, given the argument after it. */
  predicate Proper(cfg: Config, item: Item, next: Option<string>, marked: bool) {
    match item
    case EndMarker => true
    case Close(g, None, arg) => g == 0 && arg != "--" && (marked || arg == "" || arg[0] != '-' || |arg| == 1)
    case Close(g, Some(sep), _) => !marked && Key(sep) && g == MatchSeparator(cfg.groups, sep) < |cfg.groups|
    case Table(opt, own) =>
      && !marked && Key(opt.key) && MatchSeparator(cfg.groups, opt.key) == |cfg.groups|
      && var i := FindOption(cfg.options, opt.key);
         if i < |cfg.options| then opt.def == cfg.options[i] && ProperOption(opt.def, opt.val, own, next)
         else
           && !own && opt.val == Some("0") && "no" <= opt.key
           && (next.Some? ==> cfg.avOption(opt.key, next.value) == NotFound)
           && var k := FindOption(cfg.options, opt.key[2..]);
              k < |cfg.options| && cfg.options[k].isBool && opt.def == cfg.options[k]
    case Av(pair) =>
      && !marked && Key(pair.key) && MatchSeparator(cfg.groups, pair.key) == |cfg.groups|
      && FindOption(cfg.options, pair.key) == |cfg.options| && cfg.avOption(pair.key, pair.val) == Accepted
  }

  /** The key of an item that is written with a dash. */
  function KeyOf(item: Item): Option<string> {
    match item
    case EndMarker => None
    case Close(_, sep, _) => sep
    case Table(opt, _) => Some(opt.key)
    case Av(pair) => Some(pair.key)
  }

  lemma FirstItemAtDash(cfg: Config, key: string, rest: seq<string>, marked: bool)
    ensures FirstItem(cfg, ["-" + key] + rest, marked) ==
            if key == "-" then Is(EndMarker) else if key == "" || marked then Is(Close(0, None, "-" + key))
            else DashItem(cfg, key, Head(rest))
  {
    hide DashItem;
    var word := "-" + key;
    assert word[1..] == key && "--"[1..] == "-";
    assert word == "--" <==> key == "-";
    assert ["-" + key] + rest == [word] + rest;
  }

  /** A word with a dash becomes an item with that key. */
  lemma DashItemKeepsKey(cfg: Config, key: string, next: Option<string>)
    ensures var r := DashItem(cfg, key, next); r.Is? ==> KeyOf(r.item) == Some(key)
  {
    hide FindOption, MatchSeparator;
  }

  lemma TableItemIsRead(cfg: Config, opt: Opt, own: bool, rest: seq<string>)
    requires Key(opt.key)
    ensures var item := Table(opt, own);
            DashItem(cfg, opt.key, Head(Tokens(item)[1..] + rest)) == Is(item) <==> Proper(cfg, item, Head(rest), false)
  {
    hide FindOption, MatchSeparator, UpToColon;
    var after := if own && opt.val.Some? then [opt.val.value] else [];
    assert Tokens(Table(opt, own))[1..] == after;
    assert Head(after + rest) == if own && opt.val.Some? then opt.val else Head(rest);
  }

  lemma OtherItemIsRead(cfg: Config, item: Item, rest: seq<string>)
    requires !item.Table? && KeyOf(item).Some? && Key(KeyOf(item).value)
    ensures DashItem(cfg, KeyOf(item).value, Head(Tokens(item)[1..] + rest)) == Is(item) <==> Proper(cfg, item, Head(rest), false)
  {
    hide FindOption, MatchSeparator, UpToColon;
    var value := if item.Av? then item.pair.val else item.arg;
    assert Tokens(item)[1..] == [value];
  }

  lemma ItemWithKey(cfg: Config, item: Item, rest: seq<string>, marked: bool)
    requires KeyOf(item).Some?
    ensures FirstItem(cfg, Tokens(item) + rest, marked) == Is(item) <==> Proper(cfg, item, Head(rest), marked)
  {
    hide FindOption, MatchSeparator, UpToColon, FirstItem, DashItem;
    var key := KeyOf(item).value;
    var more := Tokens(item)[1..] + rest;
    assert Tokens(item) + rest == ["-" + key] + more;
    FirstItemAtDash(cfg, key, more, marked);
    if Key(key) {
      if item.Table? { TableItemIsRead(cfg, item.opt, item.own, rest); } else { OtherItemIsRead(cfg, item, rest); }
    }
  }

  /** An item is read back exactly if it is properly written. */
  lemma ProperItemIsFirst(cfg: Config, item: Item, rest: seq<string>, marked: bool)
    ensures FirstItem(cfg, Tokens(item) + rest, marked) == Is(item) <==> Proper(cfg, item, Head(rest), marked)
  {
    hide DashItem, FindOption, MatchSeparator, UpToColon;
    if KeyOf(item).Some? {
      ItemWithKey(cfg, item, rest, marked);
    } else if item.Close? && "-" <= item.arg {
      assert item.arg == "-" + item.arg[1..];
      assert Tokens(item) + rest == ["-" + item.arg[1..]] + rest;
      FirstItemAtDash(cfg, item.arg[1..], rest, marked);
      DashItemKeepsKey(cfg, item.arg[1..], Head(rest));
    }
  }

  /** A command line of properly written items, each seen with its neighbours. */
  predicate WellWritten(cfg: Config, items: seq<Item>, marked: bool) {
    items != [] ==>
      && Proper(cfg, items[0], Head(AllTokens(items[1..])), marked)
      && WellWritten(cfg, items[1..], items[0].EndMarker?)
  }

  /** Options, files and markers come back as written, in order, exactly if each is properly written. */
  lemma {:induction false} WrittenItemsParse(cfg: Config, items: seq<Item>, marked: bool)
    ensures Parse(cfg, AllTokens(items), marked) == Parsed(items, None) <==> WellWritten(cfg, items, marked)
    decreases |items|
  {
    hide Proper, FirstItem, Tokens;
    if items != [] {
      var rest := AllTokens(items[1..]);
      ProperItemIsFirst(cfg, items[0], rest, marked);
      WrittenItemsParse(cfg, items[1..], items[0].EndMarker?);
      assert (Tokens(items[0]) + rest)[|Tokens(items[0])|..] == rest;
      assert [items[0]] + items[1..] == items;
    }
  }

  lemma MarkedWords(cfg: Config, args: seq<string>)
    requires args != []
    ensures args[0] == "--" ==> forall marked :: FirstItem(cfg, args, marked) == Is(EndMarker)
    ensures args[0] != "--" ==> FirstItem(cfg, args, true) == Is(Close(0, None, args[0]))
  {
    hide DashItem;
  }

  /** "--" makes the next argument a file whatever it looks like, and no more than the next. */
  lemma MarkerProtectsOneArgument(cfg: Config, arg: string, rest: seq<string>)
    requires arg != "--"
    ensures var p, q := Parse(cfg, ["--", arg] + rest, false), Parse(cfg, rest, false);
            p == Parsed([EndMarker, Close(0, None, arg)] + q.items, q.error)
  {
    hide FirstItem, Parse;
    var all, tail := ["--", arg] + rest, [arg] + rest;
    assert all[1..] == tail && tail[1..] == rest;
    MarkedWords(cfg, all);
    MarkedWords(cfg, tail);
    ParseStep(cfg, all, false);
    ParseStep(cfg, tail, true);
    var q := Parse(cfg, rest, false);
    assert [EndMarker] + ([Close(0, None, arg)] + q.items) == [EndMarker, Close(0, None, arg)] + q.items;
  }

  // ----- Where the options belong -----

  /** The options of a stretch of items, in order: the global ones, those for a file, the codec and format ones. */
  function Globals(items: seq<Item>): (r: seq<Opt>) {
    if items == [] then []
    else
      var last := items[|items| - 1];
      Globals(items[..|items| - 1]) + if last.Table? && IsGlobal(last.opt.def) then [last.opt] else []
  }

  function FileOpts(items: seq<Item>): (r: seq<Opt>) {
    if items == [] then []
    else
      var last := items[|items| - 1];
      FileOpts(items[..|items| - 1]) + if last.Table? && !IsGlobal(last.opt.def) then [last.opt] else []
  }

  function AvPairs(items: seq<Item>): (r: seq<Pair>) {
    if items == [] then []
    else
      var last := items[|items| - 1];
      AvPairs(items[..|items| - 1]) + if last.Av? then [last.pair] else []
  }

  /** The first item after the last one that closes a group. */
  function Open(items: seq<Item>): (k: nat)
    ensures k <= |items|
    ensures k > 0 ==> items[k - 1].Close?
    ensures forall j :: k <= j < |items| ==> !items[j].Close?
  {
    if items == [] then 0 else if items[|items| - 1].Close? then |items| else Open(items[..|items| - 1])
  }

  /** The group that item `j` closes: everything since the group closed before. */
  function ClosedBy(items: seq<Item>, j: nat): Group
    requires j < |items| && items[j].Close?
  {
    var own := items[Open(items[..j])..j];
    Group(FileOpts(own), AvPairs(own), items[j].arg)
  }

  /** The groups of definition `g`, in order. */
  function GroupsOf(items: seq<Item>, g: nat): (r: seq<Group>) {
    if items == [] then []
    else
      var last := |items| - 1;
      GroupsOf(items[..last], g) + if items[last].Close? && items[last].group == g then [ClosedBy(items, last)] else []
  }

  /** The parse context after some items. */
  datatype Context = Context(global: seq<Opt>, groups: seq<seq<Group>>, cur: seq<Opt>, curAv: seq<Pair>)

  function Placed(items: seq<Item>, nbGroups: nat): Context {
    var own := items[Open(items)..];
    Context(Globals(items), seq(nbGroups, g requires 0 <= g < nbGroups => GroupsOf(items, g)), FileOpts(own), AvPairs(own))
  }

  lemma FiltersOfSnoc(items: seq<Item>, item: Item)
    ensures Globals(items + [item]) == Globals(items) + if item.Table? && IsGlobal(item.opt.def) then [item.opt] else []
    ensures FileOpts(items + [item]) == FileOpts(items) + if item.Table? && !IsGlobal(item.opt.def) then [item.opt] else []
    ensures AvPairs(items + [item]) == AvPairs(items) + if item.Av? then [item.pair] else []
    ensures Open(items + [item]) == if item.Close? then |items| + 1 else Open(items)
  {
    assert (items + [item])[..|items|] == items;
  }

  lemma GroupsOfSnoc(items: seq<Item>, item: Item, g: nat)
    ensures var own := items[Open(items)..];
            GroupsOf(items + [item], g) ==
            GroupsOf(items, g) + if item.Close? && item.group == g then [Group(FileOpts(own), AvPairs(own), item.arg)] else []
  {
    var all := items + [item];
    assert all[..|items|] == items;
    if item.Close? {
      assert all[Open(items)..|items|] == items[Open(items)..];
    }
  }

  /** Every option of the table, in command-line order. */
  function TableOpts(items: seq<Item>): seq<Opt> {
    if items == [] then []
    else
      var last := items[|items| - 1];
      TableOpts(items[..|items| - 1]) + if last.Table? then [last.opt] else []
  }

  function OptsIn(groups: seq<Group>): multiset<Opt> {
    if groups == [] then multiset{} else OptsIn(groups[..|groups| - 1]) + multiset(groups[|groups| - 1].opts)
  }

  /** The options in the groups of the first `n` definitions. */
  function OptsInAll(items: seq<Item>, n: nat): multiset<Opt> {
    if n == 0 then multiset{} else OptsInAll(items, n - 1) + OptsIn(GroupsOf(items, n - 1))
  }

  ghost predicate GroupsInRange(items: seq<Item>, n: nat) {
    forall j :: 0 <= j < |items| && items[j].Close? ==> items[j].group < n
  }

  lemma OptsInSnoc(groups: seq<Group>, g: Group)
    ensures OptsIn(groups + [g]) == OptsIn(groups) + multiset(g.opts)
  {
    assert (groups + [g])[..|groups|] == groups;
  }

  lemma GroupOptsSnoc(items: seq<Item>, item: Item, g: nat)
    ensures OptsIn(GroupsOf(items + [item], g)) == OptsIn(GroupsOf(items, g)) +
            if item.Close? && item.group == g then multiset(FileOpts(items[Open(items)..])) else multiset{}
  {
    hide FileOpts, AvPairs, GroupsOf, Open, OptsIn;
    GroupsOfSnoc(items, item, g);
    var before := GroupsOf(items, g);
    if item.Close? && item.group == g {
      var own := items[Open(items)..];
      OptsInSnoc(before, Group(FileOpts(own), AvPairs(own), item.arg));
    } else {
      assert before + [] == before;
    }
  }

  lemma {:induction false} OptsInAllSnoc(items: seq<Item>, item: Item, n: nat)
    ensures OptsInAll(items + [item], n) == OptsInAll(items, n) +
            if item.Close? && item.group < n then multiset(FileOpts(items[Open(items)..])) else multiset{}
  {
    hide FileOpts, GroupsOf, Open, OptsIn;
    if n > 0 {
      OptsInAllSnoc(items, item, n - 1);
      GroupOptsSnoc(items, item, n - 1);
    }
  }

  /** The options of a list of items, and where they are. */
  ghost predicate PlacedOnce(items: seq<Item>, n: nat) {
    multiset(TableOpts(items)) ==
    multiset(Globals(items)) + OptsInAll(items, n) + multiset(FileOpts(items[Open(items)..]))
  }

  lemma OneMorePlaced(items: seq<Item>, item: Item, n: nat)
    requires PlacedOnce(items, n) && (item.Close? ==> item.group < n)
    ensures PlacedOnce(items + [item], n)
  {
    hide Globals, FileOpts, AvPairs, Open, OptsInAll;
    var all, k := items + [item], Open(items);
    FiltersOfSnoc(items, item);
    OptsInAllSnoc(items, item, n);
    assert all[..|items|] == items;
    if item.Close? {
      assert all[|all|..] == [];
      NothingListed();
    } else {
      assert all[k..] == items[k..] + [item];
      FiltersOfSnoc(items[k..], item);
    }
  }

  /** Each table option lands in exactly one place: the global list, one closed group, or the open group. */
  lemma {:induction false} EveryOptionPlacedOnce(items: seq<Item>, n: nat)
    requires GroupsInRange(items, n)
    ensures PlacedOnce(items, n)
    decreases |items|
  {
    if items == [] {
      assert items[Open(items)..] == [];
      NothingPlaced(n);
    } else {
      hide PlacedOnce;
      var front, last := items[..|items| - 1], items[|items| - 1];
      assert items == front + [last];
      EveryOptionPlacedOnce(front, n);
      OneMorePlaced(front, last, n);
    }
  }

  lemma {:induction false} NothingPlaced(n: nat)
    ensures OptsInAll([], n) == multiset{}
  {
    if n > 0 { NothingPlaced(n - 1); }
  }

  lemma {:induction false} ParsedGroupsInRange(cfg: Config, args: seq<string>, marked: bool)
    requires |cfg.groups| > 0
    ensures GroupsInRange(Parse(cfg, args, marked).items, |cfg.groups|)
    decreases |args|
  {
    if args != [] && FirstItem(cfg, args, marked).Is? {
      var item := FirstItem(cfg, args, marked).item;
      ParsedGroupsInRange(cfg, args[|Tokens(item)|..], item.EndMarker?);
    }
  }

  function Closes(items: seq<Item>, g: nat): nat {
    if items == [] then 0
    else
      var last := items[|items| - 1];
      Closes(items[..|items| - 1], g) + if last.Close? && last.group == g then 1 else 0
  }

  /** The groups of a definition stand in the order they were closed, each with what came since the close before. */
  lemma {:induction false} GroupsInOrder(items: seq<Item>, j: nat)
    requires j < |items| && items[j].Close?
    ensures var g := items[j].group;
            |GroupsOf(items, g)| == Closes(items, g) > Closes(items[..j], g) &&
            GroupsOf(items, g)[Closes(items[..j], g)] == ClosedBy(items, j)
    decreases |items|
  {
    hide FileOpts, AvPairs, Open;
    var g, last := items[j].group, |items| - 1;
    GroupsCounted(items[..last], g);
    if j < last {
      GroupsInOrder(items[..last], j);
      assert items[..last][..j] == items[..j];
      assert items[..last][Open(items[..j])..j] == items[Open(items[..j])..j];
    }
  }

  lemma {:induction false} GroupsCounted(items: seq<Item>, g: nat)
    ensures |GroupsOf(items, g)| == Closes(items, g)
    decreases |items|
  {
    if items != [] { GroupsCounted(items[..|items| - 1], g); }
  }

  lemma {:induction false} FiltersOfConcat(a: seq<Item>, b: seq<Item>)
    ensures Globals(a + b) == Globals(a) + Globals(b)
    ensures FileOpts(a + b) == FileOpts(a) + FileOpts(b)
    ensures AvPairs(a + b) == AvPairs(a) + AvPairs(b)
    decreases |b|
  {
    hide Globals, FileOpts, AvPairs, IsGlobal;
    if b == [] {
      NothingListed();
      assert a + b == a;
    } else {
      var front, last := b[..|b| - 1], b[|b| - 1];
      assert a + b == a + front + [last] && b == front + [last];
      FiltersOfConcat(a, front);
      FiltersOfSnoc(front, last);
      FiltersOfSnoc(a + front, last);
    }
  }

  /** The three lists keep command-line order: an option stands between those before and those after it. */
  lemma ListsKeepOrder(items: seq<Item>, i: nat)
    requires i < |items|
    ensures var before, after, item := items[..i], items[i + 1..], items[i];
            var none := !item.Table? || !(item.opt.def.perFile || item.opt.def.spec || item.opt.def.offset);
            && Globals(items) == Globals(before) + (if item.Table? && none then [item.opt] else []) + Globals(after)
            && FileOpts(items) == FileOpts(before) + (if item.Table? && !none then [item.opt] else []) + FileOpts(after)
            && AvPairs(items) == AvPairs(before) + (if item.Av? then [item.pair] else []) + AvPairs(after)
  {
    hide Globals, FileOpts, AvPairs;
    var before, after := items[..i], items[i + 1..];
    assert items == before + [items[i]] + after;
    FiltersOfSnoc(before, items[i]);
    FiltersOfConcat(before + [items[i]], after);
  }

  lemma NothingListed()
    ensures Globals([]) == [] && FileOpts([]) == [] && AvPairs([]) == []
  {
  }

  /** An option marked for files ends up in the group closed by the next separator or bare argument. */
  lemma OptionReachesNextFile(items: seq<Item>, i: nat, j: nat)
    requires i < j < |items| && items[i].Table? && items[j].Close?
    requires var def := items[i].opt.def; def.perFile || def.spec || def.offset
    requires forall k :: i < k < j ==> !items[k].Close?
    ensures items[i].opt in ClosedBy(items, j).opts
  {
    var k := Open(items[..j]);
    if k > 0 { assert items[..j][k - 1] == items[k - 1]; }
    assert items[k..j][i - k] == items[i];
    hide Open, FileOpts, AvPairs;
    ListsKeepOrder(items[k..j], i - k);
  }

  /** Global are exactly the options without any of the three marks. */
  ghost predicate PlacedByFlags(ctx: Context) {
    && (forall o :: o in ctx.global ==> !o.def.perFile && !o.def.spec && !o.def.offset)
    && (forall o :: o in ctx.cur ==> o.def.perFile || o.def.spec || o.def.offset)
    && (forall g, k, o :: 0 <= g < |ctx.groups| && 0 <= k < |ctx.groups[g]| && o in ctx.groups[g][k].opts ==>
          o.def.perFile || o.def.spec || o.def.offset)
  }

  lemma {:induction false} OptionsPlacedByFlags(items: seq<Item>, n: nat)
    ensures PlacedByFlags(Placed(items, n))
    decreases |items|
  {
    if items == [] {
      NothingListed();
    } else {
      var front, last := items[..|items| - 1], items[|items| - 1];
      assert items == front + [last];
      OptionsPlacedByFlags(front, n);
      PlacedSnoc(front, last, n);
      hide Placed;
      PlacingKeepsFlags(Placed(front, n), last);
    }
  }

  lemma PlacingKeepsFlags(ctx: Context, item: Item)
    requires PlacedByFlags(ctx)
    ensures PlacedByFlags(Place(ctx, item))
  {
  }

  // ----- The context as the program updates it -----

  /** The context after one more item. */
  function Place(ctx: Context, item: Item): Context {
    match item
    case EndMarker => ctx
    case Table(opt, _) =>
      if IsGlobal(opt.def) then ctx.(global := ctx.global + [opt]) else ctx.(cur := ctx.cur + [opt])
    case Av(pair) => ctx.(curAv := ctx.curAv + [pair])
    case Close(g, _, arg) =>
      ctx.(groups := if g < |ctx.groups| then ctx.groups[g := ctx.groups[g] + [Group(ctx.cur, ctx.curAv, arg)]] else ctx.groups,
           cur := [], curAv := [])
  }

  lemma PlacedSnoc(items: seq<Item>, item: Item, n: nat)
    ensures Placed(items + [item], n) == Place(Placed(items, n), item)
  {
    hide Globals, FileOpts, AvPairs, GroupsOf, Open;
    var all, k := items + [item], Open(items);
    FiltersOfSnoc(items, item);
    forall g: nat | g < n
      ensures Placed(all, n).groups[g] == Place(Placed(items, n), item).groups[g]
    {
      GroupsOfSnoc(items, item, g);
      assert GroupsOf(items, g) + [] == GroupsOf(items, g);
    }
    assert Placed(all, n).groups == Place(Placed(items, n), item).groups;
    if item.Close? {
      assert all[|all|..] == [];
      NothingListed();
    } else {
      assert all[k..] == items[k..] + [item];
      FiltersOfSnoc(items[k..], item);
    }
  }

  /** The arguments from index `i` on; past the end there are none. */
  function From(argv: seq<string>, i: nat): seq<string> { if i <= |argv| then argv[i..] else [] }

  class OptionParseContext {
    var global: seq<Opt>
    var groups: seq<seq<Group>>
    var cur: seq<Opt>
    var curAv: seq<Pair>

    ghost function View(): Context
      reads this
    {
      Context(global, groups, cur, curAv)
    }

    constructor (nbGroups: nat)
      ensures View() == Placed([], nbGroups)
    {
      global, groups, cur, curAv := [], seq(nbGroups, _ => []), [], [];
    }

    method FinishGroup(g: nat, arg: string)
      requires g < |groups|
      modifies this
      ensures View() == Place(old(View()), Close(g, None, arg))
    {
      groups := groups[g := groups[g] + [Group(cur, curAv, arg)]];
      cur, curAv := [], [];
    }

    method AddOpt(opt: Opt)
      modifies this
      ensures View() == Place(old(View()), Table(opt, false))
      ensures var forFile := opt.def.perFile || opt.def.spec || opt.def.offset;
              && global == old(global) + (if forFile then [] else [opt])
              && cur == old(cur) + (if forFile then [opt] else [])
    {
      if !opt.def.perFile && !opt.def.spec && !opt.def.offset {
        global := global + [opt];
      } else {
        cur := cur + [opt];
      }
    }

    /** A word that starts with a dash, and the argument after it; `used` counts how far the index moves on. */
    method HandleDash(cfg: Config, key: string, next: Option<string>) returns (error: Option<Error>, used: nat)
      requires |groups| == |cfg.groups|
      modifies this
      ensures var first := DashItem(cfg, key, next);
              if first.Fails? then error == Some(first.error) && View() == old(View())
              else error == None && View() == Place(old(View()), first.item) &&
                   (used == |Tokens(first.item)| - 1 || (next.None? && |Tokens(first.item)| == 1))
    {
      error, used := None, 0;
      var g := MatchSeparator(cfg.groups, key);
      if g < |cfg.groups| {
        if next.None? {
          return Some(MissingArgument(key)), 0;
        }
        FinishGroup(g, next.value);
        return None, 1;
      }
      var i := FindOption(cfg.options, key);
      if i < |cfg.options| {
        var def := cfg.options[i];
        var arg := Some("1");
        if def.exits {
          arg, used := next, 1;
        } else if def.hasArg {
          if next.None? {
            return Some(MissingArgument(key)), 0;
          }
          arg, used := next, 1;
        }
        AddOpt(Opt(def, key, arg));
        return;
      }
      if next.Some? {
        var verdict := cfg.avOption(key, next.value);
        if verdict.Accepted? {
          curAv := curAv + [Pair(key, next.value)];
          return None, 1;
        } else if verdict.Rejected? {
          return Some(BadValue(verdict.code)), 0;
        }
      }
      if "no" <= key {
        i := FindOption(cfg.options, key[2..]);
        if i < |cfg.options| && cfg.options[i].isBool {
          AddOpt(Opt(cfg.options[i], key, Some("0")));
          return;
        }
      }
      error := Some(Unrecognized(key));
    }

    /** One turn of the loop: the word at `optindex`. */
    method HandleWord(cfg: Config, argv: seq<string>, optindex: nat, marked: bool) returns (error: Option<Error>, next: nat)
      requires |groups| == |cfg.groups| > 0 && optindex < |argv|
      modifies this
      ensures |groups| == |cfg.groups| && optindex < next
      ensures var first := FirstItem(cfg, argv[optindex..], marked);
              if first.Fails? then error == Some(first.error) && View() == old(View())
              else error == None && View() == Place(old(View()), first.item) &&
                   From(argv, next) == argv[optindex..][|Tokens(first.item)|..]
    {
      hide DashItem;
      var word := argv[optindex];
      error, next := None, optindex + 1;
      if word == "--" {
        return;
      }
      if word == "" || word[0] != '-' || |word| == 1 || marked {
        FinishGroup(0, word);
        return;
      }
      var used;
      error, used := HandleDash(cfg, word[1..], if next < |argv| then Some(argv[next]) else None);
      next := next + used;
    }

    /** `split_commandline`; `argv[0]` is the program. */
    method Split(cfg: Config, argv: seq<string>) returns (error: Option<Error>)
      requires |cfg.groups| > 0 && View() == Placed([], |cfg.groups|)
      modifies this
      ensures var parsed := Parse(cfg, From(argv, 1), false);
              error == parsed.error && View() == Placed(parsed.items, |cfg.groups|)
      ensures PlacedByFlags(View())
    {
      hide FirstItem, Place, Placed, Tokens, Parse, PlacedByFlags;
      ghost var n := |cfg.groups|;
      ghost var whole := Parse(cfg, From(argv, 1), false);
      ghost var items: seq<Item> := [];
      var optindex: nat, dashdash: int := 1, -2;
      PlacedWidth([], n);
      assert [] + whole.items == whole.items;
      while optindex < |argv|
        invariant 1 <= optindex && dashdash <= optindex && View() == Placed(items, n) && |groups| == n
        invariant whole == var rest := Parse(cfg, From(argv, optindex), dashdash == optindex);
                           Parsed(items + rest.items, rest.error)
        decreases |argv| - optindex
      {
        var word, marked := argv[optindex], dashdash == optindex;
        ghost var args := From(argv, optindex);
        ghost var first := FirstItem(cfg, args, marked);
        ParseStep(cfg, args, marked);
        var next;
        error, next := HandleWord(cfg, argv, optindex, marked);
        if error.Some? {
          assert items + [] == items;
          OptionsPlacedByFlags(items, n);
          return;
        }
        PlacedSnoc(items, first.item, n);
        ghost var rest := Parse(cfg, From(argv, next), first.item.EndMarker?);
        assert items + ([first.item] + rest.items) == items + [first.item] + rest.items;
        items := items + [first.item];
        if word == "--" {
          dashdash := next;
        }
        optindex := next;
      }
      assert items + [] == items;
      ParseStep(cfg, From(argv, optindex), dashdash == optindex);
      OptionsPlacedByFlags(items, n);
      error := None;
    }
  }

  lemma PlacedWidth(items: seq<Item>, n: nat)
    ensures |Placed(items, n).groups| == n
  {
  }

  lemma ParseStep(cfg: Config, args: seq<string>, marked: bool)
    ensures args == [] ==> Parse(cfg, args, marked) == Parsed([], None)
    ensures args != [] ==>
      var first := FirstItem(cfg, args, marked);
      if first.Fails? then Parse(cfg, args, marked) == Parsed([], Some(first.error))
      else
        && (first.item.EndMarker? <==> args[0] == "--")
        && Parse(cfg, args, marked) ==
           var rest := Parse(cfg, args[|Tokens(first.item)|..], first.item.EndMarker?);
           Parsed([first.item] + rest.items, rest.error)
  {
  }
}
