/**
 The public-domain `getopt`: one option per call, with the place in the argument
 list hidden in two static variables.  Its calls are refined against a recursive
 parser of the whole list, which in turn inverts the way options are written.
 Strings hold no NUL, so "the next character is NUL" is "the string ends here".
 */
module GetOpt {
  import opened Basics

  /** What one call reports; the program returns the option character, or '?' for the other two. */
  datatype Event = Opt(c: char, arg: Option<string>) | Illegal(c: char) | MissingArgument(c: char)

  datatype Parse = Parse(events: seq<Event>, operands: seq<string>)

  // ----- The option string -----

  /** `strchr`, as an index; the length if absent. */
  function Find(s: string, c: char): (i: nat)
    ensures i <= |s| && c !in s[..i]
    ensures i < |s| <==> c in s
    ensures i < |s| ==> s[i] == c
  {
    if s == "" || s[0] == c then 0
    else
      var rest := Find(s[1..], c);
      assert s == [s[0]] + s[1..] && s[..1 + rest] == [s[0]] + s[1..][..rest];
      1 + rest
  }

  predicate Known(opts: string, c: char) { c != ':' && c in opts }

  predicate TakesArgument(opts: string, c: char) {
    Known(opts, c) && Find(opts, c) + 1 < |opts| && opts[Find(opts, c) + 1] == ':'
  }

  // ----- The recursive parser -----

  predicate IsOption(word: string) { |word| >= 2 && word[0] == '-' }

  function Report(e: Event, rest: Parse): Parse { Parse([e] + rest.events, rest.operands) }

  /** Options up to the first operand or the "--". */
  function ParseWords(opts: string, words: seq<string>): Parse
    decreases 2 * |words|, 0
  {
    if words == [] || !IsOption(words[0]) then Parse([], words)
    else if words[0] == "--" then Parse([], words[1..])
    else ParseCluster(opts, words[0][1..], words[1..])
  }

  /** The option characters left in a word, then the words after it. */
  function ParseCluster(opts: string, chars: string, words: seq<string>): Parse
    decreases 2 * |words| + 1, |chars|
  {
    if chars == "" then ParseWords(opts, words)
    else if !Known(opts, chars[0]) then Report(Illegal(chars[0]), ParseCluster(opts, chars[1..], words))
    else if !TakesArgument(opts, chars[0]) then Report(Opt(chars[0], None), ParseCluster(opts, chars[1..], words))
    else if |chars| > 1 then Report(Opt(chars[0], Some(chars[1..])), ParseWords(opts, words))
    else if words == [] then Report(MissingArgument(chars[0]), ParseWords(opts, []))
    else Report(Opt(chars[0], Some(words[0])), ParseWords(opts, words[1..]))
  }

  // ----- The static state -----

  function Drop(s: seq<string>, n: nat): seq<string> { if n <= |s| then s[n..] else [] }

  class Scanner {
    var optind: nat
    var sp: nat
    var optopt: char
    var optarg: Option<string>

    constructor ()
      ensures optind == 1 && sp == 1
    {
      optind, sp, optopt, optarg := 1, 1, ' ', None;
    }

    /** Between calls `sp` is 1, or points into the word at `optind`. */
    predicate Valid(argv: seq<string>)
      reads `optind, `sp
    {
      sp >= 1 && (sp > 1 ==> optind < |argv| && sp < |argv[optind]|)
    }

    /** What is still to be reported. */
    ghost function Rest(argv: seq<string>, opts: string): Parse
      requires Valid(argv)
      reads `optind, `sp
    {
      if sp == 1 then ParseWords(opts, Drop(argv, optind))
      else ParseCluster(opts, argv[optind][sp..], argv[optind + 1..])
    }

    ghost function WordsLeft(argv: seq<string>): nat
      reads `optind, `sp
    {
      if optind < |argv| then |argv| - optind else 0
    }

    ghost function CharsLeft(argv: seq<string>): nat
      requires Valid(argv)
      reads `optind, `sp
    {
      if optind < |argv| && sp <= |argv[optind]| then |argv[optind]| - sp else 0
    }

    /** The place after this one: the next character, or the next word. */
    method Advance(argv: seq<string>, ghost opts: string)
      requires optind < |argv| && 1 <= sp < |argv[optind]|
      modifies `optind, `sp
      ensures Valid(argv)
      ensures Rest(argv, opts) == ParseCluster(opts, argv[old(optind)][old(sp) + 1..], argv[old(optind) + 1..])
      ensures WordsLeft(argv) < old(WordsLeft(argv)) ||
              (WordsLeft(argv) == old(WordsLeft(argv)) && CharsLeft(argv) < old(CharsLeft(argv)))
    {
      sp := sp + 1;
      if sp == |argv[optind]| {
        optind, sp := optind + 1, 1;
      }
    }

    /** The argument of option `c`: the rest of its word, or the next word. */
    method TakeArgument(argv: seq<string>, ghost opts: string) returns (ok: bool)
      requires optind < |argv| && 1 <= sp < |argv[optind]| && TakesArgument(opts, argv[optind][sp])
      modifies this
      ensures sp == 1 && optopt == old(optopt) && WordsLeft(argv) < old(WordsLeft(argv))
      ensures !ok ==> optarg == old(optarg)
      ensures var c := argv[old(optind)][old(sp)];
              var e := if ok then Opt(c, optarg) else MissingArgument(c);
              ParseCluster(opts, argv[old(optind)][old(sp)..], argv[old(optind) + 1..]) == Report(e, Rest(argv, opts))
    {
      hide Find, ParseWords;
      ghost var chars, words := argv[optind][sp..], argv[optind + 1..];
      assert chars[1..] == argv[optind][sp + 1..];
      ok := true;
      if sp + 1 < |argv[optind]| {
        optarg := Some(argv[optind][sp + 1..]);
        optind := optind + 1;
      } else {
        optind := optind + 1;
        if optind >= |argv| {
          ok := false;
          assert Drop(argv, optind) == [];
        } else {
          optarg := Some(argv[optind]);
          optind := optind + 1;
          assert words[0] == argv[optind - 1] && words[1..] == argv[optind..];
        }
      }
      sp := 1;
    }

    /** Whether there is an option character at the current place; steps over a "--". */
    method BeginWord(argv: seq<string>, ghost opts: string) returns (more: bool)
      requires Valid(argv)
      modifies `optind
      ensures !more ==> sp == 1 && old(Rest(argv, opts)) == Parse([], Drop(argv, optind))
      ensures more ==> optind == old(optind) < |argv| && sp < |argv[optind]|
      ensures more ==> old(Rest(argv, opts)) == ParseCluster(opts, argv[optind][sp..], argv[optind + 1..])
    {
      if sp == 1 {
        if optind >= |argv| || !IsOption(argv[optind]) {
          return false;
        } else if argv[optind] == "--" {
          optind := optind + 1;
          assert Drop(argv, optind) == argv[optind - 1..][1..];
          return false;
        }
        assert argv[optind..][0] == argv[optind] && argv[optind..][1..] == argv[optind + 1..];
      }
      more := true;
    }

    /** `None` is EOF. */
    method GetOpt(argv: seq<string>, opts: string) returns (e: Option<Event>)
      requires Valid(argv)
      modifies this
      ensures Valid(argv)
      ensures e.None? ==> sp == 1 && old(Rest(argv, opts)) == Parse([], Drop(argv, optind))
      ensures e.Some? ==> old(Rest(argv, opts)) == Report(e.value, Rest(argv, opts)) && optopt == e.value.c
      ensures e.Some? ==> optarg == if e.value.Opt? then e.value.arg else old(optarg)
      ensures e.Some? ==> WordsLeft(argv) < old(WordsLeft(argv)) ||
                          (WordsLeft(argv) == old(WordsLeft(argv)) && CharsLeft(argv) < old(CharsLeft(argv)))
    {
      hide ParseWords, Rest, Find;
      var more := BeginWord(argv, opts);
      if !more {
        return None;
      }
      ghost var chars, words := argv[optind][sp..], argv[optind + 1..];
      var c := argv[optind][sp];
      optopt := c;
      assert chars[0] == c && chars[1..] == argv[optind][sp + 1..];
      var cp := Find(opts, c);
      if c == ':' || cp == |opts| {
        Advance(argv, opts);
        return Some(Illegal(c));
      }
      if cp + 1 < |opts| && opts[cp + 1] == ':' {
        var ok := TakeArgument(argv, opts);
        e := Some(if ok then Opt(c, optarg) else MissingArgument(c));
      } else {
        Advance(argv, opts);
        optarg := None;
        e := Some(Opt(c, None));
      }
    }

    /** A caller's loop over a whole command line. */
    method GetAll(argv: seq<string>, opts: string) returns (events: seq<Event>)
      requires optind == 1 && sp == 1
      modifies this
      ensures Parse(events, Drop(argv, optind)) == ParseWords(opts, Drop(argv, 1))
    {
      hide ParseWords, ParseCluster;
      events := [];
      var more := true;
      assert [] + Rest(argv, opts).events == Rest(argv, opts).events;
      while more
        invariant Valid(argv)
        invariant more ==> ParseWords(opts, Drop(argv, 1)) == Parse(events + Rest(argv, opts).events, Rest(argv, opts).operands)
        invariant !more ==> ParseWords(opts, Drop(argv, 1)) == Parse(events, Drop(argv, optind))
        decreases more, WordsLeft(argv), CharsLeft(argv)
      {
        ghost var before := Rest(argv, opts).events;
        var e := GetOpt(argv, opts);
        if e.None? {
          more := false;
          assert events + [] == events;
        } else {
          assert events + before == events + [e.value] + Rest(argv, opts).events;
          events := events + [e.value];
        }
      }
    }
  }

  // ----- Writing options and reading them back -----

  /** How an option-argument is written: in the same word, or as the next one. */
  datatype Placement = Attached | Separate

  datatype Final = Final(c: char, arg: string, placement: Placement)

  /** A word: flags grouped behind one hyphen, perhaps ending in an option with its argument. */
  datatype Word = Word(flags: string, final: Option<Final>)

  function Letters(w: Word): string {
    w.flags + if w.final.None? then "" else [w.final.value.c] + if w.final.value.placement == Attached then w.final.value.arg else ""
  }

  function Written(w: Word): seq<string> {
    ["-" + Letters(w)] + if w.final.Some? && w.final.value.placement == Separate then [w.final.value.arg] else []
  }

  function WrittenAll(ws: seq<Word>): seq<string> {
    if ws == [] then [] else Written(ws[0]) + WrittenAll(ws[1..])
  }

  /** What letters without arguments report: the option, or that there is none of this name. */
  function Flags(opts: string, flags: string): seq<Event> {
    if flags == "" then []
    else
      var c := flags[0];
      [if c in opts && c != ':' then Opt(c, None) else Illegal(c)] + Flags(opts, flags[1..])
  }

  function Meaning(opts: string, w: Word): seq<Event> {
    Flags(opts, w.flags) + if w.final.None? then [] else [Opt(w.final.value.c, Some(w.final.value.arg))]
  }

  function MeaningAll(opts: string, ws: seq<Word>): seq<Event> {
    if ws == [] then [] else Meaning(opts, ws[0]) + MeaningAll(opts, ws[1..])
  }

  /** No letter but the final one takes an argument, and the word is not the end marker; letters nobody knows are allowed. */
  ghost predicate WellFormed(opts: string, w: Word) {
    && (forall i :: 0 <= i < |w.flags| ==> !TakesArgument(opts, w.flags[i]))
    && (w.final.Some? ==> TakesArgument(opts, w.final.value.c))
    && (w.final.Some? && w.final.value.placement == Attached ==> w.final.value.arg != "")
    && Letters(w) != "" && Letters(w) != "-"
  }

  lemma FlagParses(opts: string, c: char, rest: string, words: seq<string>)
    requires !TakesArgument(opts, c)
    ensures ParseCluster(opts, [c] + rest, words) ==
            Report(if c in opts && c != ':' then Opt(c, None) else Illegal(c), ParseCluster(opts, rest, words))
  {
    hide TakesArgument;
    assert ([c] + rest)[1..] == rest;
  }

  lemma {:induction false} FlagsParse(opts: string, flags: string, rest: string, words: seq<string>)
    requires forall i :: 0 <= i < |flags| ==> !TakesArgument(opts, flags[i])
    ensures ParseCluster(opts, flags + rest, words) ==
            var p := ParseCluster(opts, rest, words); Parse(Flags(opts, flags) + p.events, p.operands)
    decreases |flags|
  {
    hide TakesArgument, ParseCluster;
    var p := ParseCluster(opts, rest, words);
    if flags == "" {
      assert flags + rest == rest && [] + p.events == p.events;
    } else {
      FlagsParse(opts, flags[1..], rest, words);
      var s := flags + rest;
      assert s[1..] == flags[1..] + rest && s[0] == flags[0];
      FlagParses(opts, s[0], s[1..], words);
      assert s == [s[0]] + s[1..];
      var e := if s[0] in opts && s[0] != ':' then Opt(s[0], None) else Illegal(s[0]);
      assert [e] + (Flags(opts, flags[1..]) + p.events) == Flags(opts, flags) + p.events;
    }
  }

  /** The final option of a word, with its argument in either place. */
  lemma FinalParses(opts: string, f: Final, words: seq<string>)
    requires TakesArgument(opts, f.c) && (f.placement == Attached ==> f.arg != "")
    ensures var p := ParseWords(opts, words);
            Report(Opt(f.c, Some(f.arg)), p) ==
            if f.placement == Attached then ParseCluster(opts, [f.c] + f.arg, words)
            else ParseCluster(opts, [f.c], [f.arg] + words)
  {
    assert ([f.c] + f.arg)[1..] == f.arg;
    assert ([f.arg] + words)[1..] == words;
  }

  lemma WordParses(opts: string, w: Word, words: seq<string>)
    requires WellFormed(opts, w)
    ensures ParseWords(opts, Written(w) + words) ==
            var p := ParseWords(opts, words); Parse(Meaning(opts, w) + p.events, p.operands)
  {
    hide Known, TakesArgument;
    var all, p, letters := Written(w) + words, ParseWords(opts, words), Letters(w);
    assert all[0] == "-" + letters && all[0][1..] == letters;
    assert "--"[1..] == "-";
    assert IsOption(all[0]) && all[0] != "--";
    assert ParseWords(opts, all) == ParseCluster(opts, letters, all[1..]);
    if w.final.None? {
      assert all[1..] == words && letters == w.flags + "";
      FlagsParse(opts, w.flags, "", words);
      assert Meaning(opts, w) == Flags(opts, w.flags) + [];
      assert Flags(opts, w.flags) + [] + p.events == Flags(opts, w.flags) + p.events;
    } else {
      var f := w.final.value;
      FinalParses(opts, f, words);
      var tail := if f.placement == Attached then [f.c] + f.arg else [f.c];
      assert letters == w.flags + tail;
      assert all[1..] == if f.placement == Attached then words else [f.arg] + words;
      FlagsParse(opts, w.flags, tail, all[1..]);
      assert Flags(opts, w.flags) + ([Opt(f.c, Some(f.arg))] + p.events) == Meaning(opts, w) + p.events;
    }
  }

  lemma {:induction false} WordsParse(opts: string, ws: seq<Word>, tail: seq<string>)
    requires forall i :: 0 <= i < |ws| ==> WellFormed(opts, ws[i])
    ensures ParseWords(opts, WrittenAll(ws) + tail) ==
            var p := ParseWords(opts, tail); Parse(MeaningAll(opts, ws) + p.events, p.operands)
    decreases |ws|
  {
    hide ParseWords, Written, Meaning, WellFormed;
    var p := ParseWords(opts, tail);
    if ws == [] {
      assert WrittenAll(ws) + tail == tail && MeaningAll(opts, ws) + p.events == p.events;
    } else {
      WordsParse(opts, ws[1..], tail);
      WordParses(opts, ws[0], WrittenAll(ws[1..]) + tail);
      assert WrittenAll(ws) + tail == Written(ws[0]) + (WrittenAll(ws[1..]) + tail);
      assert MeaningAll(opts, ws) + p.events == Meaning(opts, ws[0]) + (MeaningAll(opts, ws[1..]) + p.events);
    }
  }

  /** Options written in any grouping and placement, and closed by "--", come back with the operands intact. */
  lemma WrittenOptionsParse(opts: string, ws: seq<Word>, operands: seq<string>)
    requires forall i :: 0 <= i < |ws| ==> WellFormed(opts, ws[i])
    ensures ParseWords(opts, WrittenAll(ws) + (["--"] + operands)) == Parse(MeaningAll(opts, ws), operands)
    ensures operands == [] || |operands[0]| <= 1 || operands[0][0] != '-' ==>
              ParseWords(opts, WrittenAll(ws) + operands) == Parse(MeaningAll(opts, ws), operands)
  {
    var tail := ["--"] + operands;
    WordsParse(opts, ws, tail);
    assert tail[1..] == operands;
    assert ParseWords(opts, tail) == Parse([], operands);
    assert MeaningAll(opts, ws) + [] == MeaningAll(opts, ws);
    if operands == [] || !IsOption(operands[0]) {
      WordsParse(opts, ws, operands);
    }
  }

  /** A command line that ends in an option without its argument reports just that, after everything before it. */
  lemma MissingArgumentIsReported(opts: string, ws: seq<Word>, flags: string, c: char)
    requires forall i :: 0 <= i < |ws| ==> WellFormed(opts, ws[i])
    requires (forall i :: 0 <= i < |flags| ==> !TakesArgument(opts, flags[i])) && TakesArgument(opts, c)
    requires flags + [c] != "-"
    ensures ParseWords(opts, WrittenAll(ws) + ["-" + (flags + [c])]) ==
            Parse(MeaningAll(opts, ws) + (Flags(opts, flags) + [MissingArgument(c)]), [])
  {
    hide TakesArgument, WellFormed, Find;
    var word := "-" + (flags + [c]);
    WordsParse(opts, ws, [word]);
    assert word[1..] == flags + [c] && "--"[1..] == "-" && word != "--" && |word| >= 2;
    FlagsParse(opts, flags, [c], []);
    assert [word][1..] == [];
    assert ParseWords(opts, [word]) == ParseCluster(opts, flags + [c], []);
    LoneOptionParses(opts, c);
  }

  lemma LoneOptionParses(opts: string, c: char)
    requires TakesArgument(opts, c)
    ensures ParseCluster(opts, [c], []) == Parse([MissingArgument(c)], [])
  {
    assert [MissingArgument(c)] + [] == [MissingArgument(c)];
  }

  /** The option string: a letter takes an argument exactly if a colon follows its first occurrence. */
  lemma OptionStringIsRead(before: string, c: char, after: string)
    requires c !in before && c != ':'
    ensures TakesArgument(before + [c] + after, c) <==> after != "" && after[0] == ':'
    ensures !TakesArgument(before, c) && !TakesArgument(before, ':')
  {
    var opts := before + [c] + after;
    assert opts[|before|] == c && c in opts;
  }
}
