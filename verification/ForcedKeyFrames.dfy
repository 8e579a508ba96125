/**
 `parse_forced_key_frames`: a comma-separated list of times and "chapters"
 requests becomes a sorted array.  The array is sized before the items are read,
 and resized by each chapters request.
 */
module ForcedKeyFrames {
  import opened Basics

  const INT_MAX: int := 0x7fff_ffff

  const CHAPTERS := "chapters"

  /** `ticks` parses a time and converts it to encoder ticks, or gives up; `chapters` holds the chapter starts. */
  datatype Context = Context(ticks: string -> Option<int>, chapters: seq<int>)

  // ----- Splitting -----

  /** Where the first comma stands, or the length. */
  function FirstComma(s: string): (c: nat)
    ensures c <= |s| && ',' !in s[..c]
    ensures c < |s| ==> s[c] == ','
  {
    if s == "" || s[0] == ',' then 0
    else
      var rest := FirstComma(s[1..]);
      assert s[..1 + rest] == [s[0]] + s[1..][..rest];
      1 + rest
  }

  function Split(s: string): (items: seq<string>)
    ensures |items| >= 1
    decreases |s|
  {
    var c := FirstComma(s);
    if c == |s| then [s] else [s[..c]] + Split(s[c + 1..])
  }

  function Join(items: seq<string>): string
    requires items != []
  {
    if |items| == 1 then items[0] else items[0] + "," + Join(items[1..])
  }

  function Commas(s: string): nat {
    if s == "" then 0 else Commas(s[1..]) + if s[0] == ',' then 1 else 0
  }

  /** Splitting loses nothing and leaves no comma inside an item. */
  lemma {:induction false} SplitJoins(s: string)
    ensures Join(Split(s)) == s
    ensures forall item :: item in Split(s) ==> ',' !in item
    decreases |s|
  {
    hide Join, FirstComma;
    var c := FirstComma(s);
    if c == |s| {
      assert s[..c] == s;
      JoinCons(s, []);
      assert [s] + [] == [s];
    } else {
      SplitJoins(s[c + 1..]);
      JoinCons(s[..c], Split(s[c + 1..]));
      assert s == s[..c] + "," + s[c + 1..];
    }
  }

  lemma JoinCons(item: string, items: seq<string>)
    ensures Join([item] + items) == if items == [] then item else item + "," + Join(items)
  {
    assert ([item] + items)[1..] == items;
  }

  lemma {:induction false} SplitCountsCommas(s: string)
    ensures |Split(s)| == Commas(s) + 1
    decreases |s|
  {
    var c := FirstComma(s);
    if s != "" {
      if c == 0 {
        SplitCountsCommas(s[1..]);
      } else {
        SplitCountsCommas(s[1..]);
        NoCommaYet(s);
      }
    }
  }

  lemma NoCommaYet(s: string)
    requires s != "" && s[0] != ','
    ensures |Split(s)| == |Split(s[1..])|
  {
    var c := FirstComma(s);
    assert FirstComma(s[1..]) == c - 1;
    if c < |s| {
      assert s[1..][c..] == s[c + 1..];
    }
  }

  // ----- The requested times -----

  predicate WantsChapters(item: string) { |CHAPTERS| <= |item| && item[..|CHAPTERS|] == CHAPTERS }

  function Offset(ctx: Context, item: string): Option<int>
    requires WantsChapters(item)
  {
    if |item| > |CHAPTERS| then ctx.ticks(item[|CHAPTERS|..]) else Some(0)
  }

  function ShiftAll(ts: seq<int>, t: int): (r: seq<int>)
    ensures |r| == |ts| && forall i :: 0 <= i < |ts| ==> r[i] == ts[i] + t
  {
    seq(|ts|, i requires 0 <= i < |ts| => ts[i] + t)
  }

  /** The times one item asks for. */
  function TimesOf(ctx: Context, item: string): Option<seq<int>> {
    if WantsChapters(item) then
      var t := Offset(ctx, item);
      if t.None? then None else Some(ShiftAll(ctx.chapters, t.value))
    else
      var t := ctx.ticks(item);
      if t.None? then None else Some([t.value])
  }

  /** All times asked for, unless an item is malformed or the array would outgrow an `int`. */
  function Requested(ctx: Context, items: seq<string>, size: int): (r: Option<seq<int>>) {
    if items == [] then Some([])
    else if WantsChapters(items[0]) && |ctx.chapters| > INT_MAX - size then None
    else
      var head := TimesOf(ctx, items[0]);
      var tail := Requested(ctx, items[1..], size + if WantsChapters(items[0]) then |ctx.chapters| - 1 else 0);
      if head.None? || tail.None? then None else Some(head.value + tail.value)
  }

  /** A time asks for itself; "chapters" asks for every chapter start, and with a time behind it for as much later. */
  lemma ItemsAskFor(ctx: Context, item: string, t: int)
    ensures !("chapters" <= item) && ctx.ticks(item) == Some(t) ==> TimesOf(ctx, item) == Some([t])
    ensures TimesOf(ctx, "chapters") == Some(ctx.chapters)
    ensures item != "" && ctx.ticks(item) == Some(t) ==>
              var times := TimesOf(ctx, "chapters" + item);
              times.Some? && |times.value| == |ctx.chapters| &&
              forall i :: 0 <= i < |ctx.chapters| ==> times.value[i] == ctx.chapters[i] + t
    ensures ctx.ticks(item) == None && !("chapters" <= item) ==> TimesOf(ctx, item) == None
    ensures ctx.ticks(item) == None && item != "" ==> TimesOf(ctx, "chapters" + item) == None
  {
    var word := "chapters" + item;
    assert word[..8] == "chapters" && word[8..] == item;
    assert "chapters"[..8] == "chapters";
    assert ShiftAll(ctx.chapters, 0) == ctx.chapters;
  }

  // ----- Sorting -----

  ghost predicate Ordered(s: seq<int>) { forall i, j :: 0 <= i < j < |s| ==> s[i] <= s[j] }

  function Insert(x: int, s: seq<int>): seq<int> {
    if s == [] || x <= s[0] then [x] + s else [s[0]] + Insert(x, s[1..])
  }

  function Sort(s: seq<int>): seq<int> {
    if s == [] then [] else Insert(s[0], Sort(s[1..]))
  }

  lemma {:induction false} InsertKeeps(x: int, s: seq<int>, least: int)
    ensures multiset(Insert(x, s)) == multiset(s) + multiset{x}
    ensures least <= x && (forall i :: 0 <= i < |s| ==> least <= s[i]) ==>
              forall i :: 0 <= i < |Insert(x, s)| ==> least <= Insert(x, s)[i]
  {
    if s != [] && x > s[0] {
      InsertKeeps(x, s[1..], least);
      assert s == [s[0]] + s[1..];
    }
  }

  lemma {:induction false} InsertOrders(x: int, s: seq<int>)
    requires Ordered(s)
    ensures Ordered(Insert(x, s))
  {
    if s != [] && x > s[0] {
      InsertOrders(x, s[1..]);
      InsertKeeps(x, s[1..], s[0]);
    }
  }

  lemma {:induction false} SortOrders(s: seq<int>)
    ensures multiset(Sort(s)) == multiset(s) && Ordered(Sort(s))
  {
    if s != [] {
      SortOrders(s[1..]);
      InsertOrders(s[0], Sort(s[1..]));
      InsertKeeps(s[0], Sort(s[1..]), 0);
      assert s == [s[0]] + s[1..];
    }
  }

  /** `qsort` with a three-way comparison. */
  method SortArray(a: array<int>)
    modifies a
    ensures Ordered(a[..]) && multiset(a[..]) == old(multiset(a[..]))
  {
    var s := Sort(a[..]);
    SortOrders(a[..]);
    assert |s| == |multiset(s)| == |multiset(a[..])| == a.Length;
    forall i | 0 <= i < a.Length {
      a[i] := s[i];
    }
    assert a[..] == s;
  }

  // ----- The parser -----

  method CountItems(kf: string) returns (n: nat)
    ensures n == |Split(kf)|
  {
    n := 1;
    var i := 0;
    while i < |kf|
      invariant 0 <= i <= |kf| && n + Commas(kf[i..]) == Commas(kf) + 1
    {
      if kf[i] == ',' {
        n := n + 1;
      }
      assert kf[i..][1..] == kf[i + 1..];
      i := i + 1;
    }
    SplitCountsCommas(kf);
  }

  /** `av_realloc_f`: the entries that still fit are kept. */
  method Resize(a: array<int>, size: nat) returns (b: array<int>)
    ensures fresh(b) && b.Length == size
    ensures forall i :: 0 <= i < size && i < a.Length ==> b[i] == a[i]
  {
    b := new int[size](_ => 0);
    forall i | 0 <= i < size && i < a.Length {
      b[i] := a[i];
    }
  }

  /** Writes one entry per chapter. */
  method WriteChapters(a: array<int>, index: nat, chapters: seq<int>, t: int)
    requires index + |chapters| <= a.Length
    modifies a
    ensures a[..index + |chapters|] == old(a[..index]) + ShiftAll(chapters, t)
  {
    var j := 0;
    while j < |chapters|
      invariant 0 <= j <= |chapters|
      invariant a[..index] == old(a[..index])
      invariant forall k :: 0 <= k < j ==> a[index + k] == chapters[k] + t
    {
      a[index + j] := chapters[j] + t;
      j := j + 1;
    }
  }

  predicate Overflows(ctx: Context, item: string, size: int) {
    WantsChapters(item) && |ctx.chapters| > INT_MAX - size
  }

  function SizeAfter(ctx: Context, item: string, size: int): int {
    size + if WantsChapters(item) then |ctx.chapters| - 1 else 0
  }

  /** One item: room was set aside for a single entry, and a chapters request makes it room for all of them. */
  method AddItem(ctx: Context, item: string, pts: array<int>, index: nat) returns (ok: bool, pts': array<int>, index': nat)
    requires index < pts.Length
    modifies pts
    ensures ok <==> !Overflows(ctx, item, pts.Length) && TimesOf(ctx, item).Some?
    ensures ok ==> pts'.Length == SizeAfter(ctx, item, pts.Length) && pts'.Length - index' == pts.Length - index - 1
    ensures ok ==> index' <= pts'.Length && pts'[..index'] == old(pts[..index]) + TimesOf(ctx, item).value
    ensures pts' == pts || fresh(pts')
  {
    ok, pts', index' := false, pts, index;
    ghost var before := pts[..index];
    if WantsChapters(item) {
      if |ctx.chapters| > INT_MAX - pts.Length {
        return;
      }
      pts' := Resize(pts, pts.Length + |ctx.chapters| - 1);
      assert pts'[..index] == before;
      var t := if |item| > |CHAPTERS| then ctx.ticks(item[|CHAPTERS|..]) else Some(0);
      if t.None? {
        return;
      }
      WriteChapters(pts', index, ctx.chapters, t.value);
      index' := index + |ctx.chapters|;
    } else {
      var t := ctx.ticks(item);
      if t.None? {
        return;
      }
      pts'[index] := t.value;
      index' := index + 1;
      assert pts'[..index'] == before + [t.value];
    }
    ok := true;
  }

  /** What is already written, followed by what the remaining items ask for. */
  function Pending(done: seq<int>, rest: Option<seq<int>>): Option<seq<int>> {
    if rest.None? then None else Some(done + rest.value)
  }

  /** Moving one item from the pending part to the written part. */
  lemma PendingStep(ctx: Context, items: seq<string>, i: nat, size: int, done: seq<int>)
    requires i < |items|
    ensures var all := Pending(done, Requested(ctx, items[i..], size));
            var rest := Requested(ctx, items[i + 1..], SizeAfter(ctx, items[i], size));
            if Overflows(ctx, items[i], size) || TimesOf(ctx, items[i]).None? then all.None?
            else all == Pending(done + TimesOf(ctx, items[i]).value, rest)
  {
    hide TimesOf, WantsChapters;
    assert items[i..][1..] == items[i + 1..];
    var head, rest := TimesOf(ctx, items[i]), Requested(ctx, items[i + 1..], SizeAfter(ctx, items[i], size));
    if head.Some? && rest.Some? {
      assert done + (head.value + rest.value) == done + head.value + rest.value;
    }
  }

  lemma PendingEnds(ctx: Context, items: seq<string>, size: int, done: seq<int>)
    ensures Pending(done, Requested(ctx, items[|items|..], size)) == Some(done)
    ensures Pending([], Requested(ctx, items[0..], size)) == Requested(ctx, items, size)
  {
    assert items[0..] == items && done + [] == done;
    var all := Requested(ctx, items, size);
    assert all.Some? ==> [] + all.value == all.value;
  }

  lemma NextItem(p: string, items: seq<string>, i: nat)
    requires i < |items| && Split(p) == items[i..]
    ensures p[..FirstComma(p)] == items[i]
    ensures FirstComma(p) < |p| <==> i + 1 < |items|
    ensures i + 1 < |items| ==> Split(p[FirstComma(p) + 1..]) == items[i + 1..]
  {
    hide FirstComma;
    var c := FirstComma(p);
    assert items[i..][0] == items[i] && items[i..][1..] == items[i + 1..];
    if c == |p| {
      assert p[..c] == p;
    } else {
      var rest := Split(p[c + 1..]);
      assert ([p[..c]] + rest)[1..] == rest;
    }
  }

  /** `None` stands for the calls that end the program. */
  method ParseForcedKeyFrames(kf: string, ctx: Context) returns (r: Option<array<int>>)
    ensures r.None? <==> Requested(ctx, Split(kf), |Split(kf)|).None?
    ensures r.Some? ==> fresh(r.value) && Ordered(r.value[..])
    ensures r.Some? ==> multiset(r.value[..]) == multiset(Requested(ctx, Split(kf), |Split(kf)|).value)
  {
    hide TimesOf, Requested, Split, Pending, Overflows, SizeAfter, Ordered;
    ghost var items := Split(kf);
    var n := CountItems(kf);
    var pts := new int[n](_ => 0);
    var index := 0;
    var p := kf;
    ghost var all := Requested(ctx, items, n);
    PendingEnds(ctx, items, n, []);
    assert items[0..] == items && pts[..0] == [];
    for i := 0 to n
      invariant fresh(pts) && 0 <= index && index + (n - i) == pts.Length
      invariant i < n ==> Split(p) == items[i..]
      invariant all == Pending(pts[..index], Requested(ctx, items[i..], pts.Length))
    {
      var c := FirstComma(p);
      NextItem(p, items, i);
      PendingStep(ctx, items, i, pts.Length, pts[..index]);
      var ok;
      ok, pts, index := AddItem(ctx, p[..c], pts, index);
      if !ok {
        return None;
      }
      if c < |p| {
        p := p[c + 1..];
      }
    }
    PendingEnds(ctx, items, pts.Length, pts[..index]);
    assert pts[..index] == pts[..];
    SortArray(pts);
    r := Some(pts);
  }
}
