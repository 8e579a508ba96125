/**
 The command line in the report file.  `dump_argument` leaves harmless arguments
 alone and quotes the others; the loop in `parse_loglevel` joins them.  The reader
 below undoes both, so the printed line determines the command line.
 */
module ReportDump {
  import opened Basics

  const NEWLINE: Byte := 10
  const SPACE: Byte := 32
  const QUOTE: Byte := 34
  const BACKSLASH: Byte := 92
  const LOWER_X: Byte := 120

  // ----- Printing -----

  /** '+' to ':', '@' to 'Z', '_', 'a' to 'z'. */
  predicate Plain(b: Byte) {
    43 <= b <= 58 || 64 <= b <= 90 || b == 95 || 97 <= b <= 122
  }

  predicate AllPlain(a: Bytes) { forall i :: 0 <= i < |a| ==> Plain(a[i]) }

  /** Backslash, quote, dollar, backtick. */
  predicate Special(b: Byte) { b == 92 || b == 34 || b == 36 || b == 96 }

  function HexDigit(n: Byte): (d: Byte)
    requires n < 16
  {
    if n < 10 then 48 + n else 87 + n
  }

  function Escape(b: Byte): (r: Bytes) {
    if Special(b) then [BACKSLASH, b]
    else if b < 32 || b > 126 then [BACKSLASH, LOWER_X, HexDigit(b / 16), HexDigit(b % 16)]
    else [b]
  }

  function EscapeAll(a: Bytes): (r: Bytes) {
    if a == [] then [] else Escape(a[0]) + EscapeAll(a[1..])
  }

  function Printed(a: Bytes): (r: Bytes) {
    if AllPlain(a) then a else [QUOTE] + EscapeAll(a) + [QUOTE]
  }

  function PrintedLine(argv: seq<Bytes>): (r: Bytes) {
    if argv == [] then []
    else if |argv| == 1 then Printed(argv[0]) + [NEWLINE]
    else Printed(argv[0]) + ([SPACE] + PrintedLine(argv[1..]))
  }

  // ----- Reading back -----

  function HexValue(d: Byte): (v: Option<Byte>)
    ensures v.Some? ==> v.value < 16
  {
    if 48 <= d <= 57 then Some(d - 48) else if 97 <= d <= 102 then Some(d - 87) else None
  }

  /** One character of a quoted argument, and what follows it. */
  function ReadChar(s: Bytes): (r: Option<(Byte, Bytes)>)
    ensures r.Some? ==> |r.value.1| < |s|
  {
    if s == [] then None
    else if s[0] != BACKSLASH then Some((s[0], s[1..]))
    else if |s| >= 2 && s[1] != LOWER_X then Some((s[1], s[2..]))
    else if |s| < 4 then None
    else
      var hi, lo := HexValue(s[2]), HexValue(s[3]);
      if hi.Some? && lo.Some? then Some((16 * hi.value + lo.value, s[4..])) else None
  }

  /** A quoted argument from after its opening quote, and what follows its closing quote. */
  function ReadQuoted(s: Bytes): (r: Option<(Bytes, Bytes)>)
    ensures r.Some? ==> |r.value.1| < |s|
    decreases |s|
  {
    if s == [] then None
    else if s[0] == QUOTE then Some(([], s[1..]))
    else
      var c := ReadChar(s);
      if c.None? then None
      else
        var rest := ReadQuoted(c.value.1);
        if rest.None? then None else Some(([c.value.0] + rest.value.0, rest.value.1))
  }

  function ReadPlain(s: Bytes): (r: (Bytes, Bytes))
    ensures |r.1| <= |s|
  {
    if s == [] || s[0] == SPACE || s[0] == NEWLINE then ([], s)
    else
      var rest := ReadPlain(s[1..]);
      ([s[0]] + rest.0, rest.1)
  }

  function ReadArgument(s: Bytes): (r: Option<(Bytes, Bytes)>)
    ensures r.Some? ==> |r.value.1| <= |s|
  {
    if s != [] && s[0] == QUOTE then ReadQuoted(s[1..]) else Some(ReadPlain(s))
  }

  function ReadArguments(s: Bytes): Option<seq<Bytes>>
    decreases |s|
  {
    var a := ReadArgument(s);
    if a.None? then None
    else
      var (arg, rest) := a.value;
      if rest == [NEWLINE] then Some([arg])
      else if rest != [] && rest[0] == SPACE then
        var more := ReadArguments(rest[1..]);
        if more.None? then None else Some([arg] + more.value)
      else None
  }

  function ReadLine(s: Bytes): Option<seq<Bytes>> {
    if s == [] then Some([]) else ReadArguments(s)
  }

  // ----- The round trip -----

  lemma EscapeReads(b: Byte, rest: Bytes)
    ensures ReadChar(Escape(b) + rest) == Some((b, rest))
    ensures Escape(b)[0] != QUOTE
  {
    var s := Escape(b) + rest;
    if Special(b) {
      assert s[2..] == rest;
    } else if b < 32 || b > 126 {
      assert HexValue(HexDigit(b / 16)) == Some(b / 16) && HexValue(HexDigit(b % 16)) == Some(b % 16);
      assert s[4..] == rest;
    } else {
      assert s[1..] == rest;
    }
  }

  lemma {:induction false} QuotedReads(a: Bytes, rest: Bytes)
    ensures ReadQuoted(EscapeAll(a) + [QUOTE] + rest) == Some((a, rest))
  {
    var s := EscapeAll(a) + [QUOTE] + rest;
    if a == [] {
      assert s == [QUOTE] + rest && s[1..] == rest;
    } else {
      var tail := EscapeAll(a[1..]) + [QUOTE] + rest;
      assert s == Escape(a[0]) + tail;
      EscapeReads(a[0], tail);
      QuotedReads(a[1..], rest);
      assert [a[0]] + a[1..] == a;
      assert s[0] == Escape(a[0])[0];
    }
  }

  lemma {:induction false} PlainReads(a: Bytes, rest: Bytes)
    requires AllPlain(a) && rest != [] && (rest[0] == SPACE || rest[0] == NEWLINE)
    ensures ReadPlain(a + rest) == (a, rest)
  {
    if a == [] {
      assert a + rest == rest;
    } else {
      PlainReads(a[1..], rest);
      assert (a + rest)[1..] == a[1..] + rest;
      assert [a[0]] + a[1..] == a;
    }
  }

  lemma ArgumentReads(a: Bytes, rest: Bytes)
    requires rest != [] && (rest[0] == SPACE || rest[0] == NEWLINE)
    ensures ReadArgument(Printed(a) + rest) == Some((a, rest))
  {
    hide EscapeAll, ReadQuoted, ReadPlain;
    var s := Printed(a) + rest;
    if AllPlain(a) {
      PlainReads(a, rest);
      assert s[0] == if a == [] then rest[0] else a[0];
    } else {
      QuotedReads(a, rest);
      assert s[0] == QUOTE && s[1..] == EscapeAll(a) + [QUOTE] + rest;
    }
  }

  lemma {:induction false} ArgumentsRead(argv: seq<Bytes>)
    requires argv != []
    ensures ReadArguments(PrintedLine(argv)) == Some(argv)
  {
    hide Printed, ReadArgument;
    if |argv| == 1 {
      ArgumentReads(argv[0], [NEWLINE]);
      assert [argv[0]] == argv;
    } else {
      var tail := [SPACE] + PrintedLine(argv[1..]);
      ArgumentReads(argv[0], tail);
      ArgumentsRead(argv[1..]);
      assert tail[1..] == PrintedLine(argv[1..]) && tail != [NEWLINE];
      assert [argv[0]] + argv[1..] == argv;
    }
  }

  /** Every command line can be read back from the report. */
  lemma CommandLineReadsBack(argv: seq<Bytes>)
    ensures ReadLine(PrintedLine(argv)) == Some(argv)
  {
    if argv != [] {
      ArgumentsRead(argv);
    }
  }

  /** Distinct command lines never print alike. */
  lemma PrintingIsInjective(argv: seq<Bytes>, other: seq<Bytes>)
    requires PrintedLine(argv) == PrintedLine(other)
    ensures argv == other
  {
    CommandLineReadsBack(argv);
    CommandLineReadsBack(other);
  }

  // ----- What a shell makes of it -----

  /** The character a byte stands for. */
  function Char(b: Byte): char { (b as int) as char }

  /** Characters that section 2.2 (Quoting) of the POSIX.1-2008 Shell Command Language says need quoting, or may. */
  predicate NeedsQuoting(b: Byte) {
    var c := Char(b);
    || c == '|' || c == '&' || c == ';' || c == '<' || c == '>' || c == '(' || c == ')' || c == '$' || c == '`'
    || c == '\\' || c == '"' || c == '\'' || c == ' ' || c == '\t' || c == '\n'
    || c == '*' || c == '?' || c == '[' || c == '#' || c == '~' || c == '=' || c == '%'
  }

  /** After an opening double quote a shell expands '$' and '`', and a backslash escapes only '$', '`', '"' and itself. */
  function ShellQuoted(s: Bytes): Option<Bytes>
    decreases |s|
  {
    if s == [] then None
    else if Char(s[0]) == '"' then if |s| == 1 then Some([]) else None
    else if Char(s[0]) == '$' || Char(s[0]) == '`' then None
    else
      var escapes := |s| >= 2 && Char(s[0]) == '\\' &&
                     (Char(s[1]) == '$' || Char(s[1]) == '`' || Char(s[1]) == '"' || Char(s[1]) == '\\');
      var rest := ShellQuoted(if escapes then s[2..] else s[1..]);
      if rest.None? then None else Some([if escapes then s[1] else s[0]] + rest.value)
  }

  /** One word, unquoted or in double quotes; `None` if the shell takes it for anything else. */
  function ShellWord(s: Bytes): Option<Bytes> {
    if s != [] && Char(s[0]) == '"' then ShellQuoted(s[1..])
    else if s == [] || exists i :: 0 <= i < |s| && NeedsQuoting(s[i]) then None
    else Some(s)
  }

  predicate Printable(a: Bytes) { forall i :: 0 <= i < |a| ==> 32 <= a[i] <= 126 }

  lemma EscapeInShell(b: Byte, rest: Bytes)
    requires 32 <= b <= 126
    ensures ShellQuoted(Escape(b) + rest) ==
            var r := ShellQuoted(rest); if r.None? then None else Some([b] + r.value)
  {
    var s := Escape(b) + rest;
    if |Escape(b)| == 2 {
      assert s[2..] == rest;
    } else {
      assert s[1..] == rest;
    }
  }

  lemma {:induction false} QuotedInShell(a: Bytes)
    requires Printable(a)
    ensures ShellQuoted(EscapeAll(a) + [QUOTE]) == Some(a)
  {
    if a != [] {
      hide ShellQuoted, Escape;
      QuotedInShell(a[1..]);
      EscapeInShell(a[0], EscapeAll(a[1..]) + [QUOTE]);
      assert EscapeAll(a) + [QUOTE] == Escape(a[0]) + (EscapeAll(a[1..]) + [QUOTE]);
      assert [a[0]] + a[1..] == a;
    }
  }

  /** A printed argument can be pasted into a shell: it is one word there, the argument itself, if that is not empty and
      printable. */
  lemma ShellReadsArgument(a: Bytes)
    requires a != [] && Printable(a)
    ensures ShellWord(Printed(a)) == Some(a)
  {
    hide EscapeAll, ShellQuoted;
    if !AllPlain(a) {
      QuotedInShell(a);
      assert Printed(a)[1..] == EscapeAll(a) + [QUOTE];
    }
  }

  /** Whatever the argument, the report stays printable, and only arguments made of these characters go unquoted. */
  lemma ReportStaysPrintable(a: Bytes)
    ensures Printable(Printed(a))
    ensures Printed(a) == a <==>
            forall i :: 0 <= i < |a| ==>
              var c := Char(a[i]); '+' <= c <= ':' || '@' <= c <= 'Z' || c == '_' || 'a' <= c <= 'z'
  {
    EscapedIsPrintable(a);
    hide EscapeAll;
    if !AllPlain(a) { assert |Printed(a)| > |a|; }
  }

  lemma {:induction false} EscapedIsPrintable(a: Bytes)
    ensures Printable(EscapeAll(a)) && |EscapeAll(a)| >= |a|
  {
    if a != [] { EscapedIsPrintable(a[1..]); }
  }

  // ----- The report file -----

  class Report {
    var out: Bytes

    method DumpArgument(a: Bytes)
      modifies this
      ensures out == old(out) + Printed(a)
    {
      hide EscapeAll;
      var p := 0;
      while p < |a| && Plain(a[p])
        invariant 0 <= p <= |a| && AllPlain(a[..p])
      {
        p := p + 1;
      }
      if p == |a| {
        assert a[..p] == a;
        out := out + a;
        return;
      }
      assert !Plain(a[p]);
      out := out + [QUOTE];
      DumpEscaped(a);
      out := out + [QUOTE];
      assert out == old(out) + ([QUOTE] + EscapeAll(a) + [QUOTE]);
    }

    method DumpEscaped(a: Bytes)
      modifies this
      ensures out == old(out) + EscapeAll(a)
    {
      var p := 0;
      while p < |a|
        invariant 0 <= p <= |a|
        invariant out == old(out) + EscapeAll(a[..p])
      {
        var b := a[p];
        EscapeAllSnoc(a[..p], b);
        assert a[..p] + [b] == a[..p + 1];
        if b == 92 || b == 34 || b == 36 || b == 96 {
          out := out + [BACKSLASH, b];
        } else if b < 32 || b > 126 {
          out := out + [BACKSLASH, LOWER_X, HexDigit(b / 16), HexDigit(b % 16)];
        } else {
          out := out + [b];
        }
        p := p + 1;
      }
      assert a[..p] == a;
    }

    method DumpCommandLine(argv: seq<Bytes>)
      modifies this
      ensures out == old(out) + PrintedLine(argv)
    {
      hide Printed;
      if argv == [] {
        return;
      }
      var i := 0;
      while i < |argv|
        invariant 0 <= i <= |argv|
        invariant out == old(out) + Joined(argv[..i]) + if i == |argv| then [NEWLINE] else if i > 0 then [SPACE] else []
      {
        DumpArgument(argv[i]);
        out := out + [if i < |argv| - 1 then SPACE else NEWLINE];
        JoinedSnoc(argv[..i], argv[i]);
        assert argv[..i] + [argv[i]] == argv[..i + 1];
        i := i + 1;
      }
      assert argv[..i] == argv;
      LineIsJoined(argv);
    }
  }

  lemma {:induction false} EscapeAllSnoc(a: Bytes, b: Byte)
    ensures EscapeAll(a + [b]) == EscapeAll(a) + Escape(b)
  {
    hide Escape;
    if a == [] {
      assert a + [b] == [b] && EscapeAll([]) == [] && [b][1..] == [];
    } else {
      EscapeAllSnoc(a[1..], b);
      assert (a + [b])[1..] == a[1..] + [b];
    }
  }

  /** The printed arguments with a space between neighbours. */
  function Joined(argv: seq<Bytes>): Bytes {
    if argv == [] then []
    else if |argv| == 1 then Printed(argv[0])
    else Printed(argv[0]) + ([SPACE] + Joined(argv[1..]))
  }

  lemma {:induction false} JoinedSnoc(argv: seq<Bytes>, a: Bytes)
    ensures Joined(argv + [a]) == Joined(argv) + (if argv == [] then [] else [SPACE]) + Printed(a)
  {
    hide Printed;
    if argv == [] {
      assert argv + [a] == [a];
    } else {
      JoinedSnoc(argv[1..], a);
      assert (argv + [a])[1..] == argv[1..] + [a];
      var head, tail := Printed(argv[0]), Joined(argv[1..]);
      if |argv| > 1 {
        assert head + ([SPACE] + (tail + [SPACE] + Printed(a))) == head + ([SPACE] + tail) + [SPACE] + Printed(a);
      } else {
        assert tail == [] && head + ([SPACE] + ([] + [] + Printed(a))) == head + [SPACE] + Printed(a);
      }
    }
  }

  lemma {:induction false} LineIsJoined(argv: seq<Bytes>)
    requires argv != []
    ensures PrintedLine(argv) == Joined(argv) + [NEWLINE]
  {
    hide Printed;
    if |argv| > 1 {
      LineIsJoined(argv[1..]);
      var head, tail := Printed(argv[0]), Joined(argv[1..]);
      assert head + ([SPACE] + (tail + [NEWLINE])) == head + ([SPACE] + tail) + [NEWLINE];
    }
  }
}
