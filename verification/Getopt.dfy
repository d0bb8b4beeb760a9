/** `pj_getopt` in its default mode: options may follow other arguments, which are permuted to the end. */
module Getopt {
  import opened Bytes

  type Args = seq<string>

  // ----- the command line as written -----

  datatype Kind = Unknown | Plain | Optional | Required

  /** `my_index`: the first place of the character, or the length. */
  function IndexOf(s: string, c: char): (i: nat)
    ensures i <= |s| && (i < |s| ==> s[i] == c) && forall j :: 0 <= j < i ==> s[j] != c
  {
    if s == "" || s[0] == c then 0 else 1 + IndexOf(s[1..], c)
  }

  predicate CharAt(s: string, i: nat, c: char) {
    i < |s| && s[i] == c
  }

  /** What the option string says of an option character. */
  function KindOf(optstring: string, c: char): Kind {
    var i := IndexOf(optstring, c);
    if i == |optstring| || c == ':' then Unknown
    else if !CharAt(optstring, i + 1, ':') then Plain
    else if CharAt(optstring, i + 2, ':') then Optional
    else Required
  }

  /** NONOPTION_P. */
  predicate IsNonOption(arg: string) {
    |arg| == 0 || arg[0] != '-' || |arg| == 1
  }

  const END := "--"

  /** One return of `pj_getopt`: the character, `pj_optarg`, and `pj_optopt` when it is set. */
  datatype Ret = Ret(c: char, arg: Option<string>, opt: Option<char>)

  function MissingArg(optstring: string): char {
    if CharAt(optstring, 0, ':') then ':' else '?'
  }

  /** The options of the arguments r, in the order written. */
  function Stream(os: string, r: Args): seq<Ret>
    decreases |r|, 0
  {
    if r == [] || r[0] == END then []
    else if IsNonOption(r[0]) then Stream(os, r[1..])
    else Letters(os, r[0][1..], r[1..])
  }

  /** The option characters cs of one argument, and what follows it. */
  function Letters(os: string, cs: string, r: Args): seq<Ret>
    decreases |r|, |cs| + 1
  {
    if cs == "" then Stream(os, r)
    else
      match KindOf(os, cs[0])
      case Unknown => [Ret('?', None, Some(cs[0]))] + Letters(os, cs[1..], r)
      case Plain => [Ret(cs[0], None, None)] + Letters(os, cs[1..], r)
      case Optional => [Ret(cs[0], if |cs| > 1 then Some(cs[1..]) else None, None)] + Stream(os, r)
      case Required =>
        if |cs| > 1 then [Ret(cs[0], Some(cs[1..]), None)] + Stream(os, r)
        else if r == [] then [Ret(MissingArg(os), None, Some(cs[0]))] + Stream(os, r)
        else [Ret(cs[0], Some(r[0]), None)] + Stream(os, r[1..])
  }

  /** The last option of the argument uses the next argument. */
  predicate TakesNext(os: string, cs: string) {
    cs != "" &&
    match KindOf(os, cs[0])
    case Unknown => TakesNext(os, cs[1..])
    case Plain => TakesNext(os, cs[1..])
    case Optional => false
    case Required => |cs| == 1
  }

  /** Options with their arguments and any `--`; and the rest. Each keeps its order. */
  datatype Split = Split(opts: Args, others: Args)

  function Partition(os: string, r: Args): Split {
    if r == [] then Split([], [])
    else if r[0] == END then Split([END], r[1..])
    else if IsNonOption(r[0]) then
      var p := Partition(os, r[1..]);
      Split(p.opts, [r[0]] + p.others)
    else
      var n := if TakesNext(os, r[0][1..]) && |r| > 1 then 2 else 1;
      var p := Partition(os, r[n..]);
      Split(r[..n] + p.opts, p.others)
  }

  lemma {:induction false} PartitionKeepsAll(os: string, r: Args)
    ensures var p := Partition(os, r); multiset(p.opts) + multiset(p.others) == multiset(r)
  {
    if r != [] {
      var n := if r[0] != END && !IsNonOption(r[0]) && TakesNext(os, r[0][1..]) && |r| > 1 then 2 else 1;
      assert r == r[..n] + r[n..] && r[..1] == [r[0]];
      PartitionKeepsAll(os, r[n..]);
    }
  }

  // ----- the permuted line means the same -----

  /** The returns for the option characters of one argument, which may use one more. */
  function Own(os: string, cs: string, arg: Option<string>): seq<Ret> {
    if cs == "" then []
    else
      match KindOf(os, cs[0])
      case Unknown => [Ret('?', None, Some(cs[0]))] + Own(os, cs[1..], arg)
      case Plain => [Ret(cs[0], None, None)] + Own(os, cs[1..], arg)
      case Optional => [Ret(cs[0], if |cs| > 1 then Some(cs[1..]) else None, None)]
      case Required =>
        if |cs| > 1 then [Ret(cs[0], Some(cs[1..]), None)]
        else if arg.None? then [Ret(MissingArg(os), None, Some(cs[0]))]
        else [Ret(cs[0], arg, None)]
  }

  lemma {:induction false} LettersOwn(os: string, cs: string, r: Args)
    ensures var uses := TakesNext(os, cs) && r != [];
            Letters(os, cs, r) ==
              Own(os, cs, if uses then Some(r[0]) else None) + Stream(os, if uses then r[1..] else r)
    decreases |cs|
  {
    if cs != "" && (KindOf(os, cs[0]) == Unknown || KindOf(os, cs[0]) == Plain) {
      LettersOwn(os, cs[1..], r);
    }
  }

  lemma {:induction false} OwnNeedsArg(os: string, cs: string, arg: string)
    requires TakesNext(os, cs)
    ensures Own(os, cs, None) != [] && Own(os, cs, None) != Own(os, cs, Some(arg))
    ensures |Own(os, cs, None)| == |Own(os, cs, Some(arg))|
    decreases |cs|
  {
    if KindOf(os, cs[0]) != Required {
      OwnNeedsArg(os, cs[1..], arg);
      var head := Own(os, cs, None)[0];
      assert Own(os, cs, None) == [head] + Own(os, cs[1..], None);
      assert Own(os, cs, Some(arg)) == [head] + Own(os, cs[1..], Some(arg));
      assert Own(os, cs, None)[1..] == Own(os, cs[1..], None);
      assert Own(os, cs, Some(arg))[1..] == Own(os, cs[1..], Some(arg));
    } else {
      assert Own(os, cs, None)[0].arg != Own(os, cs, Some(arg))[0].arg;
    }
  }

  /** The last option of the line lacks the argument it needs. */
  predicate Dangling(os: string, r: Args) {
    r != [] && r[0] != END &&
    if IsNonOption(r[0]) then Dangling(os, r[1..])
    else if TakesNext(os, r[0][1..]) then |r| == 1 || Dangling(os, r[2..])
    else Dangling(os, r[1..])
  }

  /** A `--` ends the options. */
  predicate Ended(os: string, r: Args) {
    r != [] &&
    (r[0] == END ||
     if IsNonOption(r[0]) then Ended(os, r[1..])
     else if TakesNext(os, r[0][1..]) && |r| > 1 then Ended(os, r[2..])
     else Ended(os, r[1..]))
  }

  /** One option argument with what it uses, whatever comes behind. */
  lemma OptionFirst(os: string, x: string, arg: Option<string>, tail: Args)
    requires x != END && !IsNonOption(x)
    requires arg.Some? <==> TakesNext(os, x[1..])
    ensures var front := [x] + if arg.Some? then [arg.value] else [];
            && Stream(os, front + tail) == Own(os, x[1..], arg) + Stream(os, tail)
            && Partition(os, front + tail) == Split(front + Partition(os, tail).opts, Partition(os, tail).others)
  {
    var front := [x] + if arg.Some? then [arg.value] else [];
    var r := front + tail;
    LettersOwn(os, x[1..], r[1..]);
    assert r[|front|..] == tail && r[..|front|] == front;
    if arg.Some? {
      assert r[1..][1..] == tail && r[1..][0] == arg.value;
    } else {
      assert r[1..] == tail;
    }
  }

  /** A line that begins with an option that has what it uses. */
  lemma OptionSplit(os: string, r: Args) returns (arg: Option<string>, front: Args, rest: Args)
    requires r != [] && r[0] != END && !IsNonOption(r[0]) && !(TakesNext(os, r[0][1..]) && |r| == 1)
    ensures (arg.Some? <==> TakesNext(os, r[0][1..])) && front == [r[0]] + (if arg.Some? then [arg.value] else [])
    ensures r == front + rest && |rest| < |r|
    ensures Dangling(os, r) == Dangling(os, rest) && Ended(os, r) == Ended(os, rest)
    ensures Stream(os, r) == Own(os, r[0][1..], arg) + Stream(os, rest)
    ensures Partition(os, r).opts == front + Partition(os, rest).opts
    ensures Partition(os, r).others == Partition(os, rest).others
  {
    if TakesNext(os, r[0][1..]) {
      arg, front, rest := Some(r[1]), [r[0]] + [r[1]], r[2..];
    } else {
      arg, front, rest := None, [r[0]], r[1..];
    }
    assert r == front + rest;
    OptionFirst(os, r[0], arg, rest);
  }

  lemma OptionMoved(os: string, x: string, arg: Option<string>, front: Args, opts: Args, tail: Args)
    requires x != END && !IsNonOption(x) && (arg.Some? <==> TakesNext(os, x[1..]))
    requires front == [x] + if arg.Some? then [arg.value] else []
    ensures Stream(os, front + opts + tail) == Own(os, x[1..], arg) + Stream(os, opts + tail)
    ensures Partition(os, front + opts + tail) ==
            Split(front + Partition(os, opts + tail).opts, Partition(os, opts + tail).others)
  {
    OptionFirst(os, x, arg, opts + tail);
    assert front + opts + tail == front + (opts + tail);
  }

  lemma Regroup<T>(a: seq<T>, b: seq<T>, c: seq<T>)
    ensures a + (b + c) == a + b + c
    ensures a + (b + []) == a + b
  {
  }

  /** The options of a line, moved in front of any other arguments. */
  lemma {:induction false} OptionsMoved(os: string, r: Args, tail: Args)
    requires !Dangling(os, r)
    ensures var opts := Partition(os, r).opts;
            && Stream(os, opts + tail) == Stream(os, r) + (if Ended(os, r) then [] else Stream(os, tail))
            && Partition(os, opts + tail) ==
                 if Ended(os, r) then Split(opts, tail)
                 else Split(opts + Partition(os, tail).opts, Partition(os, tail).others)
    decreases |r|
  {
    var opts := Partition(os, r).opts;
    if r == [] {
      assert opts + tail == tail;
    } else if r[0] == END {
      assert (opts + tail)[0] == END && (opts + tail)[1..] == tail;
    } else if IsNonOption(r[0]) {
      OptionsMoved(os, r[1..], tail);
    } else {
      var arg, front, rest := OptionSplit(os, r);
      OptionsMoved(os, rest, tail);
      OptionMoved(os, r[0], arg, front, Partition(os, rest).opts, tail);
      Regroup(Own(os, r[0][1..], arg), Stream(os, rest), if Ended(os, r) then [] else Stream(os, tail));
      Regroup(front, Partition(os, rest).opts, if Ended(os, r) then [] else Partition(os, tail).opts);
    }
  }

  lemma {:induction false} OthersSilent(os: string, r: Args)
    requires !Ended(os, r)
    ensures var others := Partition(os, r).others;
            && (forall i :: 0 <= i < |others| ==> IsNonOption(others[i]))
            && Stream(os, others) == [] && Partition(os, others) == Split([], others)
    decreases |r|
  {
    if r != [] {
      if IsNonOption(r[0]) {
        OthersSilent(os, r[1..]);
        assert Partition(os, r).others[1..] == Partition(os, r[1..]).others;
      } else {
        OthersSilent(os, r[if TakesNext(os, r[0][1..]) && |r| > 1 then 2 else 1..]);
      }
    }
  }

  /** An option that lacked its argument takes the first non-option for it once they are behind it. */
  lemma {:induction false} DanglingCaught(os: string, r: Args, tail: Args)
    requires Dangling(os, r) && tail != []
    ensures Stream(os, Partition(os, r).opts + tail) != Stream(os, r)
    decreases |r|
  {
    if IsNonOption(r[0]) {
      DanglingCaught(os, r[1..], tail);
    } else if TakesNext(os, r[0][1..]) && |r| == 1 {
      LoneCaught(os, r[0], tail);
      assert r == [r[0]];
    } else {
      var arg, front, rest := OptionSplit(os, r);
      DanglingCaught(os, rest, tail);
      OptionMoved(os, r[0], arg, front, Partition(os, rest).opts, tail);
      if Stream(os, Partition(os, r).opts + tail) == Stream(os, r) {
        SameHead(Own(os, r[0][1..], arg), Stream(os, Partition(os, rest).opts + tail), Stream(os, rest));
      }
    }
  }

  lemma SameHead(own: seq<Ret>, a: seq<Ret>, b: seq<Ret>)
    requires own + a == own + b
    ensures a == b
  {
    assert (own + a)[|own|..] == a && (own + b)[|own|..] == b;
  }

  lemma LoneCaught(os: string, x: string, tail: Args)
    requires x != END && !IsNonOption(x) && TakesNext(os, x[1..]) && tail != []
    ensures Stream(os, [x] + tail) != Stream(os, [x])
  {
    OptionFirst(os, x, Some(tail[0]), tail[1..]);
    LettersOwn(os, x[1..], []);
    OwnNeedsArg(os, x[1..], tail[0]);
    assert [x] + tail == [x] + [tail[0]] + tail[1..];
    var one, two := Own(os, x[1..], None), Own(os, x[1..], Some(tail[0]));
    assert (two + Stream(os, tail[1..]))[..|one|] == two;
    assert [x][1..] == [] && Stream(os, [x]) == one;
  }

  lemma {:induction false} NoOthers(os: string, r: Args)
    requires Partition(os, r).others == []
    ensures Partition(os, r).opts == r
    decreases |r|
  {
    if r != [] {
      if r[0] == END {
        assert r == [END] + r[1..];
      } else {
        var n := if TakesNext(os, r[0][1..]) && |r| > 1 then 2 else 1;
        NoOthers(os, r[n..]);
        assert r == r[..n] + r[n..];
      }
    }
  }

  /**
   * Scanning the permuted line again returns the same options, exactly when no option that lacks
   * its argument at the end of the line has had non-options put behind it; the line is then
   * already in its final order.
   */
  lemma PermutedMeansTheSame(os: string, r: Args)
    ensures var p := Partition(os, r);
            && (Stream(os, p.opts + p.others) == Stream(os, r) <==> !Dangling(os, r) || p.others == [])
            && (!Dangling(os, r) || p.others == [] ==> Partition(os, p.opts + p.others) == p)
  {
    var p := Partition(os, r);
    if p.others == [] {
      NoOthers(os, r);
      assert p.opts + p.others == r;
    } else if Dangling(os, r) {
      DanglingCaught(os, r, p.others);
    } else {
      OptionsMoved(os, r, p.others);
      if !Ended(os, r) {
        OthersSilent(os, r);
      }
    }
  }

  // ----- the exchange -----

  function Rotated<T>(s: seq<T>, bottom: nat, middle: nat, top: nat): (r: seq<T>)
    requires bottom <= middle <= top <= |s|
    ensures |r| == |s|
  {
    s[..bottom] + s[middle..top] + s[bottom..middle] + s[top..]
  }

  function BlocksSwapped<T>(s: seq<T>, x: nat, y: nat, len: nat): (r: seq<T>)
    requires x + len <= y && y + len <= |s|
    ensures |r| == |s|
  {
    s[..x] + s[y..y + len] + s[x + len..y] + s[x..x + len] + s[y + len..]
  }

  lemma BlocksSlices<T>(s: seq<T>, x: nat, y: nat, len: nat)
    requires x + len <= y && y + len <= |s|
    ensures var r := BlocksSwapped(s, x, y, len);
            && r[..x] == s[..x] && r[x..x + len] == s[y..y + len] && r[x + len..y] == s[x + len..y]
            && r[y..y + len] == s[x..x + len] && r[y + len..] == s[y + len..]
  {
  }

  lemma SwappedAt<T>(s: seq<T>, x: nat, y: nat, len: nat, k: nat)
    requires x + len <= y && y + len <= |s| && k < |s|
    ensures BlocksSwapped(s, x, y, len)[k] ==
            if x <= k < x + len then s[y + (k - x)] else if y <= k < y + len then s[x + (k - y)] else s[k]
  {
  }

  lemma SwapNext<T>(s: seq<T>, x: nat, y: nat, i: nat)
    requires x + i < y && y + i < |s|
    ensures x + i + 1 <= y && y + i + 1 <= |s|
    ensures BlocksSwapped(s, x, y, i)[x + i] == s[x + i] && BlocksSwapped(s, x, y, i)[y + i] == s[y + i]
    ensures BlocksSwapped(s, x, y, i)[x + i := s[y + i]][y + i := s[x + i]] == BlocksSwapped(s, x, y, i + 1)
  {
    SwappedAt(s, x, y, i, x + i);
    SwappedAt(s, x, y, i, y + i);
    var r := BlocksSwapped(s, x, y, i)[x + i := s[y + i]][y + i := s[x + i]];
    forall k | 0 <= k < |s| ensures r[k] == BlocksSwapped(s, x, y, i + 1)[k] {
      SwappedAt(s, x, y, i, k);
      SwappedAt(s, x, y, i + 1, k);
    }
  }

  /** The inner loops of `exchange`: two blocks of equal length that do not overlap change places. */
  method SwapBlocks<T>(a: array<T>, x: nat, y: nat, len: nat)
    requires x + len <= y && y + len <= a.Length
    modifies a
    ensures a[..] == BlocksSwapped(old(a[..]), x, y, len)
  {
    ghost var s := a[..];
    var i := 0;
    while i < len
      invariant 0 <= i <= len
      invariant a[..] == BlocksSwapped(s, x, y, i)
    {
      SwapNext(s, x, y, i);
      ghost var now := a[..];
      assert a[x + i] == now[x + i] && a[y + i] == now[y + i];
      var tem := a[x + i];
      a[x + i] := a[y + i];
      a[y + i] := tem;
      assert a[..] == now[x + i := s[y + i]][y + i := s[x + i]];
      i := i + 1;
    }
  }

  /** What is left to rotate, and where it will be. */
  ghost predicate Rotating<T>(now: seq<T>, goal: seq<T>, bottom: nat, middle: nat, top: nat) {
    && bottom <= middle <= top <= |now| == |goal|
    && now[..bottom] == goal[..bottom] && now[top..] == goal[top..]
    && now[middle..top] + now[bottom..middle] == goal[bottom..top]
  }

  lemma RotatedSlices<T>(s: seq<T>, bottom: nat, middle: nat, top: nat)
    requires bottom <= middle <= top <= |s|
    ensures var r, edge := Rotated(s, bottom, middle, top), bottom + (top - middle);
            r[..edge] == s[..bottom] + s[middle..top] && r[edge..top] == s[bottom..middle] && r[top..] == s[top..]
  {
  }

  lemma RotationBegins<T>(s: seq<T>, bottom: nat, middle: nat, top: nat)
    requires bottom <= middle <= top <= |s|
    ensures Rotating(s, Rotated(s, bottom, middle, top), bottom, middle, top)
  {
  }

  lemma LowStep<T>(now: seq<T>, goal: seq<T>, bottom: nat, middle: nat, top: nat, len: nat, after: seq<T>)
    requires Rotating(now, goal, bottom, middle, top) && len == middle - bottom <= top - middle
    requires after == BlocksSwapped(now, bottom, top - len, len)
    ensures Rotating(after, goal, bottom, middle, top - len)
  {
    BlocksSlices(now, bottom, top - len, len);
    var p, q := now[middle..top - len] + now[top - len..top], now[bottom..middle];
    assert now[middle..top] + now[bottom..middle] == p + q;
    CutAt(goal, bottom, top - len, top, p, q);
    Rejoined(goal, top - len, top);
    Rejoined(after, top - len, top);
  }

  lemma Rejoined<T>(s: seq<T>, from: nat, to: nat)
    requires from <= to <= |s|
    ensures s[from..] == s[from..to] + s[to..]
  {
  }

  lemma CutAt<T>(s: seq<T>, from: nat, mid: nat, to: nat, p: seq<T>, q: seq<T>)
    requires from <= mid <= to <= |s| && s[from..to] == p + q && |p| == mid - from
    ensures s[from..mid] == p && s[mid..to] == q
  {
    assert s[from..to][..mid - from] == s[from..mid] && s[from..to][mid - from..] == s[mid..to];
  }

  lemma HighStep<T>(now: seq<T>, goal: seq<T>, bottom: nat, middle: nat, top: nat, len: nat, after: seq<T>)
    requires Rotating(now, goal, bottom, middle, top) && len == top - middle <= middle - bottom
    requires after == BlocksSwapped(now, bottom, middle, len)
    ensures Rotating(after, goal, bottom + len, middle, top)
  {
    BlocksSlices(now, bottom, middle, len);
    var p, q := now[middle..top], now[bottom..bottom + len] + now[bottom + len..middle];
    assert now[middle..top] + now[bottom..middle] == p + q;
    CutAt(goal, bottom, bottom + len, top, p, q);
    assert goal[..bottom + len] == goal[..bottom] + goal[bottom..bottom + len];
    assert after[..bottom + len] == after[..bottom] + after[bottom..bottom + len];
  }

  /** The bottom segment is the short one: it changes places with the top part of the top segment. */
  method SwapLow<T>(a: array<T>, bottom: nat, middle: nat, top: nat, ghost goal: seq<T>)
    requires Rotating(a[..], goal, bottom, middle, top) && middle - bottom <= top - middle
    modifies a
    ensures Rotating(a[..], goal, bottom, middle, top - (middle - bottom))
  {
    var len := middle - bottom;
    ghost var now := a[..];
    SwapBlocks(a, bottom, top - len, len);
    LowStep(now, goal, bottom, middle, top, len, a[..]);
  }

  /** The top segment is the short one: it changes places with the bottom part of the bottom segment. */
  method SwapHigh<T>(a: array<T>, bottom: nat, middle: nat, top: nat, ghost goal: seq<T>)
    requires Rotating(a[..], goal, bottom, middle, top) && top - middle <= middle - bottom
    modifies a
    ensures Rotating(a[..], goal, bottom + (top - middle), middle, top)
  {
    var len := top - middle;
    ghost var now := a[..];
    SwapBlocks(a, bottom, middle, len);
    HighStep(now, goal, bottom, middle, top, len, a[..]);
  }

  /** The loop of `exchange`. */
  method RotateTo<T>(a: array<T>, first: nat, last: nat, end: nat, ghost goal: seq<T>)
    requires Rotating(a[..], goal, first, last, end)
    modifies a
    ensures a[..] == goal
  {
    var bottom, middle, top := first, last, end;
    while top > middle && middle > bottom
      invariant Rotating(a[..], goal, bottom, middle, top)
      decreases top - bottom
    {
      if top - middle > middle - bottom {
        SwapLow(a, bottom, middle, top, goal);
        top := top - (middle - bottom);
      } else {
        SwapHigh(a, bottom, middle, top, goal);
        bottom := bottom + (top - middle);
      }
    }
    Rotation(a[..], goal, bottom, middle, top);
  }

  lemma Rotation<T>(now: seq<T>, goal: seq<T>, bottom: nat, middle: nat, top: nat)
    requires Rotating(now, goal, bottom, middle, top) && (top == middle || middle == bottom)
    ensures now == goal
  {
    assert now[middle..top] + now[bottom..middle] == now[bottom..top];
    assert now == now[..bottom] + now[bottom..top] + now[top..];
    assert goal == goal[..bottom] + goal[bottom..top] + goal[top..];
  }

  // ----- where a scan stands -----

  /** The slices of argv that the three indices mark out. */
  predicate Marked(a: Args, first: nat, last: nat, ind: nat) {
    1 <= first <= last <= ind <= |a|
  }

  function Taken(a: Args, first: nat, last: nat, ind: nat): Args
    requires Marked(a, first, last, ind)
  {
    a[1..first] + a[last..ind]
  }

  /** How argv will end up, as far as the scan can tell. */
  function Outcome(os: string, a: Args, first: nat, last: nat, ind: nat): Split
    requires Marked(a, first, last, ind)
  {
    var p := Partition(os, a[ind..]);
    Split(Taken(a, first, last, ind) + p.opts, a[first..last] + p.others)
  }

  predicate IsOption(arg: string) {
    arg != END && !IsNonOption(arg)
  }

  /** In the middle of an option argument the characters left are a part of it that says as much. */
  predicate InOption(os: string, a: Args, nextchar: string, ind: nat) {
    nextchar != "" ==>
      ind < |a| && IsOption(a[ind]) && (TakesNext(os, nextchar) <==> TakesNext(os, a[ind][1..]))
  }

  /** What the calls from now on return. */
  function Coming(os: string, a: Args, nextchar: string, ind: nat): seq<Ret>
    requires ind <= |a| && (nextchar != "" ==> ind < |a|)
  {
    if nextchar == "" then Stream(os, a[ind..]) else Letters(os, nextchar, a[ind + 1..])
  }

  /** With nothing skipped the marks may move up to the scan. */
  lemma NothingSkipped(os: string, a: Args, first: nat, ind: nat)
    requires Marked(a, first, first, ind)
    ensures Outcome(os, a, ind, ind, ind) == Outcome(os, a, first, first, ind)
  {
    assert a[1..first] + a[first..ind] == a[1..ind];
  }

  /** The options moved before the skipped arguments. */
  lemma Exchanged(os: string, a: Args, first: nat, last: nat, ind: nat, b: Args)
    requires Marked(a, first, last, ind) && b == Rotated(a, first, last, ind)
    ensures var first' := first + (ind - last);
            && Marked(b, first', ind, ind)
            && b[0] == a[0] && b[ind..] == a[ind..]
            && b[1..first'] == Taken(a, first, last, ind) && b[first'..ind] == a[first..last]
            && Outcome(os, b, first', ind, ind) == Outcome(os, a, first, last, ind)
  {
    var first' := first + (ind - last);
    RotatedSlices(a, first, last, ind);
    assert b[1..first'] == b[..first'][1..] && a[..first][1..] == a[1..first];
    assert Taken(b, first', ind, ind) == b[1..first'];
  }

  lemma Skipped(os: string, a: Args, first: nat, ind: nat)
    requires Marked(a, first, ind, ind) && ind < |a| && IsNonOption(a[ind])
    ensures Outcome(os, a, first, ind + 1, ind + 1) == Outcome(os, a, first, ind, ind)
    ensures Stream(os, a[ind..]) == Stream(os, a[ind + 1..])
  {
    assert a[ind..][0] == a[ind] && a[ind..][1..] == a[ind + 1..];
    assert a[first..ind + 1] == a[first..ind] + [a[ind]];
  }

  /** An option with its argument, if it uses one, has been dealt with. */
  lemma Consumed(os: string, a: Args, first: nat, last: nat, ind: nat)
    requires Marked(a, first, last, ind) && ind < |a| && IsOption(a[ind])
    ensures var n := Width(os, a, ind);
            Outcome(os, a, first, last, ind + n) == Outcome(os, a, first, last, ind)
  {
    var n := Width(os, a, ind);
    var p := Partition(os, a[ind + n..]);
    assert a[ind..][n..] == a[ind + n..] && a[ind..][..n] == a[ind..ind + n];
    assert a[ind..][0] == a[ind] && Width(os, a[ind..], 0) == n;
    PartitionOption(os, a[ind..]);
    assert a[last..ind + n] == a[last..ind] + a[ind..ind + n];
    Regroup(a[1..first], a[last..ind], a[ind..ind + n]);
    Regroup(Taken(a, first, last, ind), a[ind..ind + n], p.opts);
  }

  /** How many arguments the option argument at `ind` is worth. */
  function Width(os: string, a: Args, ind: nat): (n: nat)
    requires ind < |a| && IsOption(a[ind])
    ensures 1 <= n <= 2 && ind + n <= |a|
  {
    if TakesNext(os, a[ind][1..]) && ind + 1 < |a| then 2 else 1
  }

  lemma PartitionOption(os: string, r: Args)
    requires r != [] && IsOption(r[0])
    ensures var n := Width(os, r, 0);
            Partition(os, r) == Split(r[..n] + Partition(os, r[n..]).opts, Partition(os, r[n..]).others)
  {
  }

  /** The next option character, and where the scan goes on. */
  lemma LetterComing(os: string, a: Args, cs: string, ind: nat)
    requires cs != "" && ind < |a|
    ensures var c, after := cs[0], if |cs| == 1 then ind + 1 else ind;
            match KindOf(os, c)
            case Unknown => Coming(os, a, cs, ind) == [Ret('?', None, Some(c))] + Coming(os, a, cs[1..], after)
            case Plain => Coming(os, a, cs, ind) == [Ret(c, None, None)] + Coming(os, a, cs[1..], after)
            case Optional =>
              var arg := if |cs| > 1 then Some(cs[1..]) else None;
              Coming(os, a, cs, ind) == [Ret(c, arg, None)] + Coming(os, a, "", ind + 1)
            case Required =>
              Coming(os, a, cs, ind) ==
                if |cs| > 1 then [Ret(c, Some(cs[1..]), None)] + Coming(os, a, "", ind + 1)
                else if ind + 1 == |a| then [Ret(MissingArg(os), None, Some(c))] + Coming(os, a, "", ind + 1)
                else [Ret(c, Some(a[ind + 1]), None)] + Coming(os, a, "", ind + 2)
  {
    var r := a[ind + 1..];
    assert Letters(os, "", r) == Stream(os, r);
    if ind + 1 < |a| {
      assert r[0] == a[ind + 1] && r[1..] == a[ind + 2..];
    }
  }

  lemma LetterTakes(os: string, cs: string)
    requires cs != ""
    ensures var kind := KindOf(os, cs[0]);
            TakesNext(os, cs) <==>
              (kind == Required && |cs| == 1) ||
              ((kind == Unknown || kind == Plain) && |cs| > 1 && TakesNext(os, cs[1..]))
  {
    assert !TakesNext(os, "");
  }

  /** The option strings covered: no leading `-` or `+`, and no `W;`. */
  predicate InScope(os: string) {
    !CharAt(os, 0, '-') && !CharAt(os, 0, '+') && !CharAt(os, IndexOf(os, 'W') + 1, ';')
  }

  // ----- the scanner -----

  class Scanner {
    const optstring: string
    const argv: array<string>
    var optind: nat
    var nextchar: string
    var firstNonopt: nat
    var lastNonopt: nat
    var optarg: Option<string>
    var optopt: char

    ghost predicate Valid()
      reads this, argv
    {
      Marked(argv[..], firstNonopt, lastNonopt, optind) && InOption(optstring, argv[..], nextchar, optind)
    }

    /** What the calls from now on return. */
    ghost function Todo(): seq<Ret>
      reads this, argv
      requires Valid()
    {
      Coming(optstring, argv[..], nextchar, optind)
    }

    ghost function Ends(): Split
      reads this, argv
      requires Valid()
    {
      Outcome(optstring, argv[..], firstNonopt, lastNonopt, optind)
    }

    /** The first call, `_getopt_initialize`; `pj_optind` is 1 before any call. */
    constructor (optstring: string, argv: array<string>)
      requires argv.Length >= 1 && InScope(optstring)
      ensures Valid() && this.optstring == optstring && this.argv == argv
      ensures Todo() == Stream(optstring, argv[1..]) && Ends() == Partition(optstring, argv[1..])
    {
      this.optstring, this.argv := optstring, argv;
      optind, firstNonopt, lastNonopt, nextchar := 1, 1, 1, "";
      optarg, optopt := None, '?';
    }

    /** `exchange`. */
    method Exchange()
      requires Marked(argv[..], firstNonopt, lastNonopt, optind)
      modifies argv, this`firstNonopt, this`lastNonopt
      ensures argv[..] == Rotated(old(argv[..]), old(firstNonopt), old(lastNonopt), optind)
      ensures firstNonopt == old(firstNonopt) + (optind - old(lastNonopt)) && lastNonopt == optind
    {
      RotationBegins(argv[..], firstNonopt, lastNonopt, optind);
      RotateTo(argv, firstNonopt, lastNonopt, optind, Rotated(argv[..], firstNonopt, lastNonopt, optind));
      firstNonopt := firstNonopt + (optind - lastNonopt);
      lastNonopt := optind;
    }

    /** Options dealt with since non-options were skipped are moved before them. */
    method MoveOptions()
      requires Valid() && nextchar == ""
      modifies argv, this`firstNonopt, this`lastNonopt
      ensures Valid() && lastNonopt == optind
      ensures Todo() == old(Todo()) && Ends() == old(Ends()) && argv[0] == old(argv[0])
    {
      if firstNonopt != lastNonopt && lastNonopt != optind {
        ghost var now := argv[..];
        Exchanged(optstring, now, firstNonopt, lastNonopt, optind, Rotated(now, firstNonopt, lastNonopt, optind));
        Exchange();
        assert argv[..][0] == now[0];
      } else if lastNonopt != optind {
        NothingSkipped(optstring, argv[..], firstNonopt, optind);
        firstNonopt := optind;
        lastNonopt := optind;
      }
    }

    /** Non-options are passed over. */
    method SkipOthers()
      requires Valid() && nextchar == "" && lastNonopt == optind
      modifies this`optind, this`lastNonopt
      ensures Valid() && lastNonopt == optind
      ensures optind < argv.Length ==> !IsNonOption(argv[optind])
      ensures Todo() == old(Todo()) && Ends() == old(Ends())
    {
      while optind < argv.Length && IsNonOption(argv[optind])
        invariant Valid() && nextchar == "" && lastNonopt == optind
        invariant Todo() == old(Todo()) && Ends() == old(Ends())
        decreases argv.Length - optind
      {
        Skipped(optstring, argv[..], firstNonopt, optind);
        optind := optind + 1;
        lastNonopt := optind;
      }
    }

    /** The part of `_getopt_internal` that looks for the next option argument. */
    method Advance() returns (done: bool)
      requires Valid() && nextchar == ""
      modifies argv, this`optind, this`firstNonopt, this`lastNonopt, this`nextchar
      ensures argv[0] == old(argv[0])
      ensures done <==> old(Todo()) == []
      ensures done ==> Arranged(argv[..], optind, old(Ends()))
      ensures !done ==> Valid() && nextchar != "" && Todo() == old(Todo()) && Ends() == old(Ends())
    {
      MoveOptions();
      SkipOthers();
      if optind != argv.Length && argv[optind] == END {
        FinishAtEnd();
        return true;
      }
      if optind == argv.Length {
        AtTheEnd(optstring, argv[..], firstNonopt, optind);
        if firstNonopt != lastNonopt {
          optind := firstNonopt;
        }
        return true;
      }
      nextchar := argv[optind][1..];
      OptionComing(optstring, argv[..], optind);
      return false;
    }

    /** `--`: it counts as an option, and everything behind it as non-options. */
    method FinishAtEnd()
      requires Valid() && nextchar == "" && lastNonopt == optind < argv.Length && argv[optind] == END
      modifies argv, this`optind, this`firstNonopt, this`lastNonopt
      ensures argv[..][0] == old(argv[..])[0] && Arranged(argv[..], optind, old(Ends()))
      ensures old(Todo()) == []
    {
      EndComing(optstring, argv[..], firstNonopt, optind);
      MoveEnd();
      lastNonopt := argv.Length;
      optind := argv.Length;
      if firstNonopt != lastNonopt {
        optind := firstNonopt;
      }
    }

    /** The part of `_getopt_internal` that handles the next option character. */
    method TakeLetter() returns (r: Ret)
      requires Valid() && nextchar != "" && optarg == None
      modifies this`optind, this`nextchar, this`optarg, this`optopt
      ensures Valid() && [r] + Todo() == old(Todo()) && Ends() == old(Ends())
      ensures optarg == r.arg && (r.opt.Some? ==> optopt == r.opt.value)
    {
      ghost var now := argv[..];
      Consumed(optstring, now, firstNonopt, lastNonopt, optind);
      LetterComing(optstring, now, nextchar, optind);
      LetterTakes(optstring, nextchar);
      var c := nextchar[0];
      var kind := KindOf(optstring, c);
      nextchar := nextchar[1..];
      if nextchar == "" {
        optind := optind + 1;
      }
      if kind == Unknown {
        optopt := c;
        return Ret('?', None, Some(c));
      }
      if kind == Plain {
        return Ret(c, None, None);
      }
      if kind == Optional {
        if nextchar != "" {
          optarg := Some(nextchar);
          optind := optind + 1;
        }
        nextchar := "";
        return Ret(c, optarg, None);
      }
      if nextchar != "" {
        optarg := Some(nextchar);
        optind := optind + 1;
        nextchar := "";
        return Ret(c, optarg, None);
      }
      if optind == argv.Length {
        optopt := c;
        return Ret(MissingArg(optstring), None, Some(c));
      }
      optarg := Some(argv[optind]);
      optind := optind + 1;
      return Ret(c, optarg, None);
    }

    /**
     * `pj_getopt`: returns the next of the options still to come, and -1 (here, nothing) when there
     * is none left, with argv arranged and `pj_optind` at the first non-option.
     */
    method Next() returns (r: Option<Ret>)
      requires Valid()
      modifies this, argv
      ensures argv[0] == old(argv[0])
      ensures r.None? <==> old(Todo()) == []
      ensures r.None? ==> Arranged(argv[..], optind, old(Ends()))
      ensures r.Some? ==> Valid() && [r.value] + Todo() == old(Todo()) && Ends() == old(Ends())
      ensures r.Some? ==> optarg == r.value.arg && (r.value.opt.Some? ==> optopt == r.value.opt.value)
    {
      optarg := None;
      if nextchar == "" {
        var done := Advance();
        if done {
          return None;
        }
      }
      var ret := TakeLetter();
      return Some(ret);
    }

    /** The caller's loop: `pj_getopt` until it returns -1. */
    method Rest() returns (rets: seq<Ret>)
      requires Valid()
      modifies this, argv
      ensures rets == old(Todo())
      ensures argv[0] == old(argv[0]) && Arranged(argv[..], optind, old(Ends()))
    {
      ghost var all, ends, first := Todo(), Ends(), argv[0];
      rets := [];
      while true
        invariant Valid() && rets + Todo() == all && Ends() == ends && argv[0] == first
        decreases |Todo()|
      {
        ghost var todo := Todo();
        var r := Next();
        if r == None {
          break;
        }
        OneMore(rets, r.value, Todo(), todo);
        rets := rets + [r.value];
      }
    }

    method MoveEnd()
      requires Valid() && lastNonopt == optind < argv.Length
      modifies argv, this`optind, this`firstNonopt, this`lastNonopt
      ensures argv[..] == Rotated(old(argv[..]), old(firstNonopt), old(optind), old(optind) + 1)
      ensures firstNonopt == old(firstNonopt) + 1
    {
      optind := optind + 1;
      if firstNonopt != lastNonopt && lastNonopt != optind {
        Exchange();
      } else if firstNonopt == lastNonopt {
        firstNonopt := optind;
      }
    }
  }

  lemma OneMore<T>(done: seq<T>, x: T, rest: seq<T>, todo: seq<T>)
    requires [x] + rest == todo
    ensures done + todo == done + [x] + rest
  {
  }

  /** The options first, each with its argument, then the rest; `ind` is where the rest begins. */
  predicate Arranged(a: Args, ind: nat, ends: Split) {
    1 <= ind <= |a| && a[1..ind] == ends.opts && a[ind..] == ends.others
  }

  lemma AtTheEnd(os: string, a: Args, first: nat, ind: nat)
    requires Marked(a, first, ind, ind) && ind == |a|
    ensures Stream(os, a[ind..]) == [] && Arranged(a, first, Outcome(os, a, first, ind, ind))
  {
    assert a[1..first] + a[ind..ind] == a[1..first] && a[first..ind] + [] == a[first..];
  }

  lemma OptionComing(os: string, a: Args, ind: nat)
    requires ind < |a| && IsOption(a[ind])
    ensures a[ind][1..] != "" && Stream(os, a[ind..]) == Letters(os, a[ind][1..], a[ind + 1..])
    ensures Stream(os, a[ind..]) != []
  {
    assert a[ind..][0] == a[ind] && a[ind..][1..] == a[ind + 1..];
  }

  lemma EndComing(os: string, a: Args, first: nat, ind: nat)
    requires Marked(a, first, ind, ind) && ind < |a| && a[ind] == END
    ensures Stream(os, a[ind..]) == []
    ensures Arranged(Rotated(a, first, ind, ind + 1), first + 1, Outcome(os, a, first, ind, ind))
  {
    var b := Rotated(a, first, ind, ind + 1);
    assert a[ind..][0] == END && a[ind..][1..] == a[ind + 1..];
    RotatedSlices(a, first, ind, ind + 1);
    assert b[1..first + 1] == b[..first + 1][1..] && a[..first][1..] == a[1..first];
    assert b[first + 1..] == b[first + 1..ind + 1] + b[ind + 1..];
  }

  /**
   * Calling `pj_getopt` until it returns -1 terminates, returns exactly the options of the command
   * line in order, and leaves argv a permutation of it: the options with their arguments and any
   * `--` first, then the non-options, each group in its original order.
   */
  method ScanAll(optstring: string, argv: array<string>) returns (rets: seq<Ret>, ind: nat)
    requires argv.Length >= 1 && InScope(optstring)
    modifies argv
    ensures rets == Stream(optstring, old(argv[1..]))
    ensures argv[0] == old(argv[0]) && Arranged(argv[..], ind, Partition(optstring, old(argv[1..])))
    ensures multiset(argv[..]) == multiset(old(argv[..]))
  {
    ghost var line := argv[..];
    var scanner := new Scanner(optstring, argv);
    rets := scanner.Rest();
    ind := scanner.optind;
    SamePieces(optstring, line, argv[..], ind);
  }

  lemma SamePieces(os: string, line: Args, a: Args, ind: nat)
    requires |line| >= 1 && |a| >= 1 && a[0] == line[0] && Arranged(a, ind, Partition(os, line[1..]))
    ensures multiset(a) == multiset(line)
  {
    PartitionKeepsAll(os, line[1..]);
    ThreePieces(a, ind);
    assert line == [line[0]] + line[1..];
  }

  lemma ThreePieces(a: Args, ind: nat)
    requires 1 <= ind <= |a|
    ensures multiset(a) == multiset([a[0]]) + (multiset(a[1..ind]) + multiset(a[ind..]))
  {
    assert a == [a[0]] + (a[1..ind] + a[ind..]);
  }

  // ----- what the option string means -----

  /** The first place of the character in the option string. */
  predicate FirstAt(os: string, c: char, i: nat) {
    i < |os| && os[i] == c && c !in os[..i]
  }

  /** No colon stands behind the character. */
  predicate ListedPlain(os: string, c: char) {
    c != ':' && exists i: nat :: i < |os| && FirstAt(os, c, i) && (i + 1 == |os| || os[i + 1] != ':')
  }

  /** One colon stands behind it. */
  predicate ListedRequired(os: string, c: char) {
    c != ':' && exists i: nat :: i + 1 < |os| && FirstAt(os, c, i) && os[i + 1] == ':' && (i + 2 == |os| || os[i + 2] != ':')
  }

  /** Two colons stand behind it. */
  predicate ListedOptional(os: string, c: char) {
    c != ':' && exists i: nat :: i + 2 < |os| && FirstAt(os, c, i) && os[i + 1] == ':' && os[i + 2] == ':'
  }

  predicate NotListed(os: string, c: char) {
    c == ':' || c !in os
  }

  lemma FirstIsIndex(os: string, c: char, i: nat)
    requires FirstAt(os, c, i)
    ensures IndexOf(os, c) == i
  {
  }

  lemma IndexIsFirst(os: string, c: char)
    ensures c in os <==> IndexOf(os, c) < |os|
    ensures c in os ==> FirstAt(os, c, IndexOf(os, c))
  {
  }

  lemma KindIs(os: string, c: char)
    ensures KindOf(os, c) == Plain <==> ListedPlain(os, c)
    ensures KindOf(os, c) == Required <==> ListedRequired(os, c)
    ensures KindOf(os, c) == Optional <==> ListedOptional(os, c)
    ensures KindOf(os, c) == Unknown <==> NotListed(os, c)
  {
    IndexIsFirst(os, c);
    forall i: nat | FirstAt(os, c, i) ensures i == IndexOf(os, c) {
      FirstIsIndex(os, c, i);
    }
  }

  /**
   * What a user may write: an argument that is no option; plain options in one argument; or options of
   * which the last has an argument, apart or joined to its letter, or does without one.
   */
  datatype Item =
    | Word(text: string)
    | Flags(letters: string)
    | Apart(letters: string, c: char, arg: string)
    | Joined(letters: string, c: char, arg: string)
    | Bare(letters: string, c: char)

  /** The end of the line: nothing more, `--` and any arguments, or an option that lacks its argument. */
  datatype Tail = Nothing | Ended(rest: Args) | Lacking(letters: string, c: char)

  function WriteItem(item: Item): Args {
    match item
    case Word(text) => [text]
    case Flags(letters) => ["-" + letters]
    case Apart(letters, c, arg) => ["-" + letters + [c], arg]
    case Joined(letters, c, arg) => ["-" + letters + [c] + arg]
    case Bare(letters, c) => ["-" + letters + [c]]
  }

  function WriteTail(tail: Tail): Args {
    match tail
    case Nothing => []
    case Ended(rest) => ["--"] + rest
    case Lacking(letters, c) => ["-" + letters + [c]]
  }

  function WriteLine(items: seq<Item>, tail: Tail): Args {
    if items == [] then WriteTail(tail) else WriteItem(items[0]) + WriteLine(items[1..], tail)
  }

  /** Letters that take no argument, whether the option string lists them or not. */
  predicate AllFlags(os: string, letters: string) {
    forall x :: x in letters ==> ListedPlain(os, x) || NotListed(os, x)
  }

  /** The option string allows the item, and the item is not taken for `--`. */
  predicate Allowed(os: string, item: Item) {
    match item
    case Word(text) => text == "" || text[0] != '-' || text == "-"
    case Flags(letters) => letters != "" && letters != "-" && AllFlags(os, letters)
    case Apart(letters, c, _) => letters + [c] != "-" && AllFlags(os, letters) && ListedRequired(os, c)
    case Joined(letters, c, arg) => arg != "" && AllFlags(os, letters) && (ListedRequired(os, c) || ListedOptional(os, c))
    case Bare(letters, c) => letters + [c] != "-" && AllFlags(os, letters) && ListedOptional(os, c)
  }

  predicate AllowedTail(os: string, tail: Tail) {
    tail.Lacking? ==> tail.letters + [tail.c] != "-" && AllFlags(os, tail.letters) && ListedRequired(os, tail.c)
  }

  function FlagReturn(os: string, x: char): Ret {
    if NotListed(os, x) then Ret('?', None, Some(x)) else Ret(x, None, None)
  }

  function FlagReturns(os: string, letters: string): seq<Ret> {
    if letters == "" then [] else [FlagReturn(os, letters[0])] + FlagReturns(os, letters[1..])
  }

  /** What the calls return for it. */
  function ItemReturns(os: string, item: Item): seq<Ret> {
    match item
    case Word(_) => []
    case Flags(letters) => FlagReturns(os, letters)
    case Apart(letters, c, arg) => FlagReturns(os, letters) + [Ret(c, Some(arg), None)]
    case Joined(letters, c, arg) => FlagReturns(os, letters) + [Ret(c, Some(arg), None)]
    case Bare(letters, c) => FlagReturns(os, letters) + [Ret(c, None, None)]
  }

  function TailReturns(os: string, tail: Tail): seq<Ret> {
    if tail.Lacking? then
      FlagReturns(os, tail.letters) + [Ret(if os != "" && os[0] == ':' then ':' else '?', None, Some(tail.c))]
    else []
  }

  function LineReturns(os: string, items: seq<Item>, tail: Tail): seq<Ret> {
    if items == [] then TailReturns(os, tail) else ItemReturns(os, items[0]) + LineReturns(os, items[1..], tail)
  }

  /** The arguments that are options or belong to them, in order. */
  function OptionWords(items: seq<Item>, tail: Tail): Args {
    if items == [] then (match tail case Nothing => [] case Ended(_) => ["--"] case Lacking(_, _) => WriteTail(tail))
    else (if items[0].Word? then [] else WriteItem(items[0])) + OptionWords(items[1..], tail)
  }

  /** The others, in order. */
  function OtherWords(items: seq<Item>, tail: Tail): Args {
    if items == [] then (if tail.Ended? then tail.rest else [])
    else (if items[0].Word? then [items[0].text] else []) + OtherWords(items[1..], tail)
  }

  /** A letter without an argument, and what follows it. */
  lemma OneFlag(os: string, x: char, more: string, r: Args)
    requires ListedPlain(os, x) || NotListed(os, x)
    ensures Letters(os, [x] + more, r) == [FlagReturn(os, x)] + Letters(os, more, r)
    ensures TakesNext(os, [x] + more) == TakesNext(os, more)
  {
    KindIs(os, x);
    assert ([x] + more)[0] == x && ([x] + more)[1..] == more;
  }

  lemma {:induction false} FlagsLetters(os: string, letters: string, more: string, r: Args)
    requires AllFlags(os, letters)
    ensures Letters(os, letters + more, r) == FlagReturns(os, letters) + Letters(os, more, r)
    ensures TakesNext(os, letters + more) == TakesNext(os, more)
    decreases |letters|
  {
    if letters == "" {
      assert letters + more == more;
    } else {
      var x, rest := letters[0], letters[1..] + more;
      assert x in letters;
      OneFlag(os, x, rest, r);
      assert letters + more == [x] + rest;
      FlagsLetters(os, letters[1..], more, r);
      Grouping([FlagReturn(os, x)], FlagReturns(os, letters[1..]), Letters(os, more, r));
    }
  }

  /** One option argument: its letters, and whether it uses the next argument. */
  lemma OneArgument(os: string, letters: string, more: string, r: Args)
    requires AllFlags(os, letters) && letters + more != "" && letters + more != "-"
    ensures var w := "-" + letters + more;
            && Stream(os, [w] + r) == FlagReturns(os, letters) + Letters(os, more, r)
            && var n := if TakesNext(os, more) && r != [] then 1 else 0;
               Partition(os, [w] + r) == Split([w] + r[..n] + Partition(os, r[n..]).opts, Partition(os, r[n..]).others)
  {
    var w := "-" + letters + more;
    assert w[1..] == letters + more && w[0] == '-' && |w| > 1;
    assert END[1..] == "-";
    FlagsLetters(os, letters, more, r);
    var line := [w] + r;
    assert line[0] == w && line[1..] == r;
    var n := if TakesNext(os, more) && r != [] then 1 else 0;
    assert line[..n + 1] == [w] + r[..n] && line[n + 1..] == r[n..];
  }

  predicate Means(os: string, item: Item, r: Args) {
    && Stream(os, WriteItem(item) + r) == ItemReturns(os, item) + Stream(os, r)
    && Partition(os, WriteItem(item) + r) ==
         if item.Word? then Split(Partition(os, r).opts, [item.text] + Partition(os, r).others)
         else Split(WriteItem(item) + Partition(os, r).opts, Partition(os, r).others)
  }

  lemma WordMeans(os: string, text: string, r: Args)
    requires Allowed(os, Word(text))
    ensures Means(os, Word(text), r)
  {
    assert ([text] + r)[1..] == r && text != END;
    assert [] + Stream(os, r) == Stream(os, r);
  }

  lemma SameLists<T>(r: seq<T>, w: T)
    ensures r[..0] == [] && r[0..] == r && [w] + r[..0] == [w]
  {
  }

  lemma FlagsMean(os: string, letters: string, r: Args)
    requires Allowed(os, Flags(letters))
    ensures Means(os, Flags(letters), r)
  {
    assert letters + "" == letters && "-" + letters + "" == "-" + letters;
    OneArgument(os, letters, "", r);
    SameLists(r, "-" + letters);
  }

  lemma ApartMeans(os: string, letters: string, c: char, arg: string, r: Args)
    requires Allowed(os, Apart(letters, c, arg))
    ensures Means(os, Apart(letters, c, arg), r)
  {
    KindIs(os, c);
    var w, rest := "-" + letters + [c], [arg] + r;
    OneArgument(os, letters, [c], rest);
    ApartLists(w, arg, r);
    assert Letters(os, [c], rest) == [Ret(c, Some(arg), None)] + Stream(os, r);
    Grouping(FlagReturns(os, letters), [Ret(c, Some(arg), None)], Stream(os, r));
  }

  lemma ApartLists<T>(w: T, arg: T, r: seq<T>)
    ensures var rest := [arg] + r; rest[0] == arg && rest[..1] == [arg] && rest[1..] == r
    ensures [w, arg] + r == [w] + ([arg] + r) && [w] + [arg] == [w, arg]
  {
  }

  lemma Grouping<T>(a: seq<T>, b: seq<T>, c: seq<T>)
    ensures a + (b + c) == a + b + c
  {
  }

  lemma JoinedMeans(os: string, letters: string, c: char, arg: string, r: Args)
    requires Allowed(os, Joined(letters, c, arg))
    ensures Means(os, Joined(letters, c, arg), r)
  {
    KindIs(os, c);
    var more := [c] + arg;
    assert "-" + letters + more == "-" + letters + [c] + arg;
    assert more[0] == c && more[1..] == arg;
    OneArgument(os, letters, more, r);
    SameLists(r, "-" + letters + more);
    assert Letters(os, more, r) == [Ret(c, Some(arg), None)] + Stream(os, r);
    Grouping(FlagReturns(os, letters), [Ret(c, Some(arg), None)], Stream(os, r));
  }

  lemma BareMeans(os: string, letters: string, c: char, r: Args)
    requires Allowed(os, Bare(letters, c))
    ensures Means(os, Bare(letters, c), r)
  {
    KindIs(os, c);
    OneArgument(os, letters, [c], r);
    SameLists(r, "-" + letters + [c]);
    assert Letters(os, [c], r) == [Ret(c, None, None)] + Stream(os, r);
    Grouping(FlagReturns(os, letters), [Ret(c, None, None)], Stream(os, r));
  }

  lemma ItemMeans(os: string, item: Item, r: Args)
    requires Allowed(os, item)
    ensures Means(os, item, r)
  {
    match item
    case Word(text) => WordMeans(os, text, r);
    case Flags(letters) => FlagsMean(os, letters, r);
    case Apart(letters, c, arg) => ApartMeans(os, letters, c, arg, r);
    case Joined(letters, c, arg) => JoinedMeans(os, letters, c, arg, r);
    case Bare(letters, c) => BareMeans(os, letters, c, r);
  }

  lemma TailMeans(os: string, tail: Tail)
    requires AllowedTail(os, tail)
    ensures Stream(os, WriteTail(tail)) == TailReturns(os, tail)
    ensures Partition(os, WriteTail(tail)) == Split(OptionWords([], tail), OtherWords([], tail))
  {
    match tail
    case Nothing =>
    case Ended(rest) => assert (["--"] + rest)[1..] == rest;
    case Lacking(letters, c) =>
      KindIs(os, c);
      OneArgument(os, letters, [c], []);
      assert ["-" + letters + [c]] + [] == ["-" + letters + [c]];
  }

  /** A line of allowed items means what it says, by the characters of the option string. */
  lemma {:induction false} LineMeans(os: string, items: seq<Item>, tail: Tail)
    requires (forall item :: item in items ==> Allowed(os, item)) && AllowedTail(os, tail)
    ensures Stream(os, WriteLine(items, tail)) == LineReturns(os, items, tail)
    ensures Partition(os, WriteLine(items, tail)) == Split(OptionWords(items, tail), OtherWords(items, tail))
    decreases items
  {
    if items == [] {
      TailMeans(os, tail);
    } else {
      assert items[0] in items;
      ItemMeans(os, items[0], WriteLine(items[1..], tail));
      LineMeans(os, items[1..], tail);
    }
  }

  /** The letters without an argument at the head of an option argument. */
  lemma {:induction false} LeadingFlags(os: string, cs: string) returns (letters: string, more: string)
    ensures cs == letters + more && AllFlags(os, letters)
    ensures more != "" ==> ListedRequired(os, more[0]) || ListedOptional(os, more[0])
    decreases |cs|
  {
    letters, more := "", cs;
    if cs != "" {
      KindIs(os, cs[0]);
      if KindOf(os, cs[0]) == Plain || KindOf(os, cs[0]) == Unknown {
        letters, more := LeadingFlags(os, cs[1..]);
        letters := [cs[0]] + letters;
      }
    }
  }

  predicate AllowedLine(os: string, items: seq<Item>, tail: Tail) {
    (forall item :: item in items ==> Allowed(os, item)) && AllowedTail(os, tail)
  }

  lemma ItemAhead(os: string, item: Item, items: seq<Item>, tail: Tail)
    requires Allowed(os, item) && AllowedLine(os, items, tail)
    ensures AllowedLine(os, [item] + items, tail)
    ensures WriteLine([item] + items, tail) == WriteItem(item) + WriteLine(items, tail)
  {
    assert ([item] + items)[1..] == items;
  }

  /** The item an option argument is, with the argument that follows it; or a lacking argument. */
  lemma ReadItem(os: string, w: string, r: Args) returns (item: Option<Item>, tail: Tail)
    requires !IsNonOption(w) && w != END
    ensures item.Some? ==>
              Allowed(os, item.value) && WriteItem(item.value) <= [w] + r && |WriteItem(item.value)| > 0
    ensures item.None? ==> tail.Lacking? && AllowedTail(os, tail) && [w] + r == WriteTail(tail)
  {
    var letters, more := LeadingFlags(os, w[1..]);
    tail := Nothing;
    assert w == "-" + letters + more;
    assert letters + more != "-" by {
      assert w == "-" + (letters + more);
      assert END == "-" + "-";
    }
    if more == "" {
      assert letters + more == letters;
      item := Some(Flags(letters));
      assert WriteItem(Flags(letters)) == [w];
    } else if |more| > 1 {
      assert more == [more[0]] + more[1..];
      item := Some(Joined(letters, more[0], more[1..]));
      assert w == "-" + letters + [more[0]] + more[1..];
    } else {
      assert more == [more[0]];
      if ListedOptional(os, more[0]) {
        item := Some(Bare(letters, more[0]));
      } else if r == [] {
        item, tail := None, Lacking(letters, more[0]);
      } else {
        item := Some(Apart(letters, more[0], r[0]));
        assert [w] + r == [w, r[0]] + r[1..];
      }
    }
  }

  /** Every argument line is a line of allowed items, so the law above is about all of them. */
  lemma {:induction false} EveryLine(os: string, r: Args) returns (items: seq<Item>, tail: Tail)
    ensures AllowedLine(os, items, tail) && WriteLine(items, tail) == r
    decreases |r|
  {
    items, tail := [], Nothing;
    if r != [] {
      var w := r[0];
      if w == END {
        tail := Tail.Ended(r[1..]);
      } else {
        var item: Option<Item> := Some(Word(w));
        if !IsNonOption(w) {
          item, tail := ReadItem(os, w, r[1..]);
        }
        assert [w] + r[1..] == r;
        if item.Some? {
          var n := |WriteItem(item.value)|;
          items, tail := EveryLine(os, r[n..]);
          ItemAhead(os, item.value, items, tail);
          items := [item.value] + items;
        }
      }
    }
  }

  /**
   * Scanning a line of allowed items returns each option with its own argument, unlisted letters and a
   * lacking argument as such, and leaves the options first, then everything else, with the index between.
   */
  method ScanLine(optstring: string, argv: array<string>, ghost items: seq<Item>, ghost tail: Tail)
    returns (rets: seq<Ret>, ind: nat)
    requires argv.Length >= 1 && InScope(optstring) && argv[1..] == WriteLine(items, tail)
    requires AllowedLine(optstring, items, tail)
    modifies argv
    ensures rets == LineReturns(optstring, items, tail)
    ensures 1 <= ind <= argv.Length && argv[0] == old(argv[0])
    ensures argv[1..ind] == OptionWords(items, tail) && argv[ind..] == OtherWords(items, tail)
  {
    LineMeans(optstring, items, tail);
    rets, ind := ScanAll(optstring, argv);
  }
}
