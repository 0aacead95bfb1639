/** Patterns and what they mean (section 5.4.1 of the Lua 5.1 Reference Manual). Strings end
    before the character `'\0'`, as in `lua-5.1/lstrlib.c`. */
module PatternItems {

  datatype Option<+T> = None | Some(value: T)

  const L_ESC := '%'
  const LUA_MAXCAPTURES: nat := 32

  /** `isalpha` and its like: whether a character belongs to the class of a letter. */
  type Classes = (char, char) -> bool

  function CharAt(p: string, i: nat): char {
    if i < |p| then p[i] else '\0'
  }

  predicate IsLower(c: char) {
    'a' <= c <= 'z'
  }

  function ToLower(c: char): char {
    if 'A' <= c <= 'Z' then c - 'A' + 'a' else c
  }

  /** `match_class`. */
  predicate MatchClass(ct: Classes, c: char, cl: char) {
    if ToLower(cl) in "acdlpsuwx" then ct(ToLower(cl), c) == IsLower(cl)
    else if ToLower(cl) == 'z' then (c == '\0') == IsLower(cl)
    else cl == c
  }

  // ----- sets of characters -----

  datatype Element = Escape(cl: char) | Range(lo: char, hi: char)

  datatype CharSet = Any | Class(cl: char) | Exactly(c: char) | Set(complement: bool, elements: seq<Element>)

  predicate Covers(ct: Classes, e: Element, c: char) {
    match e
    case Escape(cl) => MatchClass(ct, c, cl)
    case Range(lo, hi) => lo <= c <= hi
  }

  predicate SomeCovers(ct: Classes, elements: seq<Element>, c: char) {
    exists i :: 0 <= i < |elements| && Covers(ct, elements[i], c)
  }

  lemma FirstCovers(ct: Classes, e: Element, rest: seq<Element>, c: char)
    ensures SomeCovers(ct, [e] + rest, c) <==> Covers(ct, e, c) || SomeCovers(ct, rest, c)
  {
    var all := [e] + rest;
    if Covers(ct, e, c) { assert Covers(ct, all[0], c); }
    if i :| 0 <= i < |rest| && Covers(ct, rest[i], c) { assert all[i + 1] == rest[i]; }
  }

  predicate InSet(ct: Classes, s: CharSet, c: char) {
    match s
    case Any => true
    case Class(cl) => MatchClass(ct, c, cl)
    case Exactly(x) => x == c
    case Set(complement, elements) => SomeCovers(ct, elements, c) != complement
  }

  /** The end of a set in brackets whose contents begin at `q`, after the bracket. The
      first character belongs to the set even if it is a bracket. */
  function SetEnd(p: string, q: nat): (e: Option<nat>)
    ensures e.Some? ==> q + 2 <= e.value <= |p|
    decreases |p| - q
  {
    if CharAt(p, q) == '\0' then None
    else
      var next := if CharAt(p, q) == L_ESC && CharAt(p, q + 1) != '\0' then q + 2 else q + 1;
      if CharAt(p, next) == ']' then Some(next + 1) else SetEnd(p, next)
  }

  function AfterCaret(p: string, q: nat): nat {
    if CharAt(p, q) == '^' then q + 1 else q
  }

  /** The end of the class that begins at `i`. */
  function ClassEnd(p: string, i: nat): (e: Option<nat>)
    requires i < |p|
    ensures e.Some? ==> i < e.value <= |p|
  {
    if p[i] == L_ESC then if CharAt(p, i + 1) == '\0' then None else Some(i + 2)
    else if p[i] == '[' then SetEnd(p, AfterCaret(p, i + 1))
    else Some(i + 1)
  }

  /** The elements of a set written from `q` to before `end`. */
  function Elements(p: string, q: nat, end: nat): seq<Element>
    decreases end - q
  {
    if q >= end then []
    else if CharAt(p, q) == L_ESC then [Escape(CharAt(p, q + 1))] + Elements(p, q + 2, end)
    else if CharAt(p, q + 1) == '-' && q + 2 < end then
      [Range(CharAt(p, q), CharAt(p, q + 2))] + Elements(p, q + 3, end)
    else [Range(CharAt(p, q), CharAt(p, q))] + Elements(p, q + 1, end)
  }

  /** The set in brackets from `i` to before `e`. */
  function BracketSet(p: string, i: nat, e: nat): CharSet {
    Set(CharAt(p, i + 1) == '^', Elements(p, AfterCaret(p, i + 1), if e > 0 then e - 1 else 0))
  }

  /** The set that the class from `i` to before `e` stands for. */
  function ClassSet(p: string, i: nat, e: nat): CharSet {
    match CharAt(p, i)
    case '.' => Any
    case '%' => Class(CharAt(p, i + 1))
    case '[' => BracketSet(p, i, e)
    case c => Exactly(c)
  }

  // ----- items -----

  datatype PatternError = InvalidCaptureIndex | InvalidPatternCapture | EndsWithEscape | MissingBracket
                        | UnbalancedPattern | MissingSetAfterFrontier | TooManyCaptures | UnfinishedCapture

  datatype Repeat = Once | AtMostOnce | Longest | LongestNotEmpty | Shortest

  /** `Broken` stands for a part that is not well formed: an error as soon as a match gets there. */
  datatype Item = Single(chars: CharSet, rep: Repeat) | Balance(open: char, close: char) | Frontier(chars: CharSet)
                | End | OpenCapture | PositionCapture | CloseCapture | BackReference(index: int)
                | Broken(error: PatternError)

  function RepeatAt(p: string, e: nat): Repeat {
    match CharAt(p, e)
    case '?' => AtMostOnce
    case '*' => Longest
    case '+' => LongestNotEmpty
    case '-' => Shortest
    case _ => Once
  }

  function AfterRepeat(p: string, e: nat): nat {
    if RepeatAt(p, e) == Once then e else e + 1
  }

  predicate IsDigit(c: char) {
    '0' <= c <= '9'
  }

  /** What is wrong with a class that has no end. */
  function ClassError(p: string, i: nat): PatternError {
    if CharAt(p, i) == L_ESC then EndsWithEscape else MissingBracket
  }

  /** The items of a pattern from position `i` on, up to the first that is not well formed. */
  function Parse(p: string, i: nat): seq<Item>
    decreases |p| - i
  {
    var c, d := CharAt(p, i), CharAt(p, i + 1);
    if c == '\0' then []
    else if c == '(' && d == ')' then [PositionCapture] + Parse(p, i + 2)
    else if c == '(' then [OpenCapture] + Parse(p, i + 1)
    else if c == ')' then [CloseCapture] + Parse(p, i + 1)
    else if c == L_ESC && d == 'b' then
      if CharAt(p, i + 2) == '\0' || CharAt(p, i + 3) == '\0' then [Broken(UnbalancedPattern)]
      else [Balance(p[i + 2], p[i + 3])] + Parse(p, i + 4)
    else if c == L_ESC && d == 'f' then
      if CharAt(p, i + 2) != '[' then [Broken(MissingSetAfterFrontier)]
      else
        var e := ClassEnd(p, i + 2);
        if e.None? then [Broken(MissingBracket)]
        else [Frontier(BracketSet(p, i + 2, e.value))] + Parse(p, e.value)
    else if c == L_ESC && IsDigit(d) then [BackReference(d as int - '1' as int)] + Parse(p, i + 2)
    else if c == '$' && d == '\0' then [End]
    else
      var e := ClassEnd(p, i);
      if e.None? then [Broken(ClassError(p, i))]
      else [Single(ClassSet(p, i, e.value), RepeatAt(p, e.value))] + Parse(p, AfterRepeat(p, e.value))
  }

  // ----- captures -----

  /** What the source keeps of `(`, of `(` and `)`, and of `()`: the positions where they were passed. */
  datatype Capture = Opened(start: nat) | Closed(start: nat, end: nat) | Position(at: nat)

  function Flags(caps: seq<Capture>): (open: seq<bool>)
    ensures |open| == |caps|
  {
    seq(|caps|, i requires 0 <= i < |caps| => caps[i].Opened?)
  }

  /** Which capture `)` closes: the last one that is open. */
  function LastOpen(open: seq<bool>): (l: Option<nat>)
    ensures
      match l
      case Some(i) => i < |open| && open[i] && forall j :: i < j < |open| ==> !open[j]
      case None => forall j :: 0 <= j < |open| ==> !open[j]
  {
    if open == [] then None
    else if open[|open| - 1] then Some(|open| - 1)
    else LastOpen(open[..|open| - 1])
  }

  function CloseLast(caps: seq<Capture>, s: nat): (r: Option<seq<Capture>>)
    ensures r.Some? ==> |r.value| == |caps|
  {
    var l := LastOpen(Flags(caps));
    if l.None? then None else Some(caps[l.value := Closed(caps[l.value].start, s)])
  }

  /** The capture lies before `s`. */
  predicate Lies(c: Capture, s: nat) {
    match c
    case Opened(a) => a <= s
    case Closed(a, b) => a <= b <= s
    case Position(a) => a <= s
  }

  predicate AllLie(caps: seq<Capture>, s: nat) {
    forall i :: 0 <= i < |caps| ==> Lies(caps[i], s)
  }

  /** Where the characters of a capture end that are there again at `s`. */
  function Again(s: nat, c: Capture): nat {
    if c.Closed? && c.start <= c.end then s + (c.end - c.start) else s
  }

  /** `src` has at `s` the same characters again that a closed capture has. */
  predicate Repeats(src: string, s: nat, c: Capture) {
    c.Closed? && c.start <= c.end <= |src| && Again(s, c) <= |src| && src[s..Again(s, c)] == src[c.start..c.end]
  }

  /** With the captures so far open as `open` says, there are not too many captures, every one that
      is closed is open, and every one referred to is closed before. */
  predicate Nested(items: seq<Item>, open: seq<bool>) {
    if items == [] then true
    else
      match items[0]
      case OpenCapture => |open| < LUA_MAXCAPTURES && Nested(items[1..], open + [true])
      case PositionCapture => |open| < LUA_MAXCAPTURES && Nested(items[1..], open + [false])
      case CloseCapture => var l := LastOpen(open); l.Some? && Nested(items[1..], open[l.value := false])
      case BackReference(l) => 0 <= l < |open| && !open[l] && Nested(items[1..], open)
      case Broken(_) => false
      case _ => Nested(items[1..], open)
  }

  // ----- the language of a pattern -----

  predicate Hits(ct: Classes, src: string, s: nat, chars: CharSet) {
    s < |src| && InSet(ct, chars, src[s])
  }

  /** The `n` characters from `s` on are in the set. */
  predicate AllIn(ct: Classes, src: string, s: nat, n: nat, chars: CharSet) {
    forall i :: s <= i < s + n ==> Hits(ct, src, i, chars)
  }

  predicate Allows(r: Repeat, n: nat) {
    match r
    case Once => n == 1
    case AtMostOnce => n <= 1
    case LongestNotEmpty => n >= 1
    case _ => true
  }

  function Change(c: char, open: char, close: char): int {
    if c == close then -1 else if c == open then 1 else 0
  }

  /** How deep the brackets are open after `src[s..e]`, counted from `depth`. */
  function Depth(src: string, s: nat, e: nat, open: char, close: char): int
    requires s <= e <= |src|
    decreases e - s
  {
    if s == e then 0
    else Depth(src, s, e - 1, open, close) + Change(src[e - 1], open, close)
  }

  /** `src[s..e]` is an opening bracket and what follows up to the bracket that closes it. */
  ghost predicate Balanced(src: string, s: nat, e: nat, open: char, close: char) {
    && s + 1 < e <= |src| && src[s] == open && 1 + Depth(src, s + 1, e, open, close) == 0
    && StaysOpen(src, s + 1, e, open, close)
  }

  ghost predicate StaysOpen(src: string, a: nat, e: nat, open: char, close: char)
    requires a <= e <= |src|
  {
    forall k :: a <= k < e ==> 1 + Depth(src, a, k, open, close) > 0
  }

  predicate AtFrontier(ct: Classes, src: string, s: nat, chars: CharSet) {
    !InSet(ct, chars, if 0 < s <= |src| then src[s - 1] else '\0') && InSet(ct, chars, CharAt(src, s))
  }

  /** What comes of a match: its end and what it captures, or an error. */
  datatype Try = Hit(end: nat, caps: seq<Capture>) | Bad(error: PatternError)

  /** The items can be followed from `s`, with the captures `caps` so far, to come to `x`. */
  ghost predicate Derives(ct: Classes, src: string, s: nat, items: seq<Item>, caps: seq<Capture>, x: Try)
    decreases |items|
  {
    if items == [] then x == Hit(s, caps)
    else
      var rest := items[1..];
      match items[0]
      case Single(chars, r) =>
        exists n: nat :: Allows(r, n) && AllIn(ct, src, s, n, chars) && Derives(ct, src, s + n, rest, caps, x)
      case Balance(open, close) =>
        exists k: nat :: Balanced(src, s, k, open, close) && Derives(ct, src, k, rest, caps, x)
      case Frontier(chars) => AtFrontier(ct, src, s, chars) && Derives(ct, src, s, rest, caps, x)
      case End => s == |src| && Derives(ct, src, s, rest, caps, x)
      case OpenCapture =>
        if |caps| >= LUA_MAXCAPTURES then x == Bad(TooManyCaptures)
        else Derives(ct, src, s, rest, caps + [Opened(s)], x)
      case PositionCapture =>
        if |caps| >= LUA_MAXCAPTURES then x == Bad(TooManyCaptures)
        else Derives(ct, src, s, rest, caps + [Position(s)], x)
      case CloseCapture =>
        var closed := CloseLast(caps, s);
        if closed.None? then x == Bad(InvalidPatternCapture) else Derives(ct, src, s, rest, closed.value, x)
      case BackReference(l) =>
        if !(0 <= l < |caps|) || caps[l].Opened? then x == Bad(InvalidCaptureIndex)
        else Repeats(src, s, caps[l]) && Derives(ct, src, Again(s, caps[l]), rest, caps, x)
      case Broken(error) => x == Bad(error)
  }

  // ----- the order of priority -----

  /** How many characters from `s` on are in the set. */
  function Run(ct: Classes, src: string, s: nat, chars: CharSet): (n: nat)
    ensures AllIn(ct, src, s, n, chars) && !Hits(ct, src, s + n, chars)
    decreases |src| - s
  {
    if Hits(ct, src, s, chars) then 1 + Run(ct, src, s + 1, chars) else 0
  }

  /** The end of the balanced string, counted on from `k` with `depth` brackets open. */
  function BalanceEnd(src: string, k: nat, depth: nat, open: char, close: char): (e: Option<nat>)
    ensures e.Some? ==> k < e.value <= |src|
    decreases |src| - k
  {
    if k >= |src| then None
    else if src[k] == close then if depth <= 1 then Some(k + 1) else BalanceEnd(src, k + 1, depth - 1, open, close)
    else BalanceEnd(src, k + 1, if src[k] == open then depth + 1 else depth, open, close)
  }

  function BalancedEnd(src: string, s: nat, open: char, close: char): Option<nat> {
    if CharAt(src, s) == open && s < |src| then BalanceEnd(src, s + 1, 1, open, close) else None
  }

  /** All that can come of the items from `s`, in the order of priority: an item repeated longest
      tries its longest repetition first, one repeated shortest its shortest. */
  function Tries(ct: Classes, src: string, s: nat, items: seq<Item>, caps: seq<Capture>): seq<Try>
    decreases |items|, 0
  {
    if items == [] then [Hit(s, caps)]
    else
      var rest := items[1..];
      match items[0]
      case Single(chars, Once) => if Hits(ct, src, s, chars) then Tries(ct, src, s + 1, rest, caps) else []
      case Single(chars, AtMostOnce) =>
        (if Hits(ct, src, s, chars) then Tries(ct, src, s + 1, rest, caps) else []) + Tries(ct, src, s, rest, caps)
      case Single(chars, Longest) => Down(ct, src, s, Run(ct, src, s, chars), rest, caps)
      case Single(chars, LongestNotEmpty) =>
        if Hits(ct, src, s, chars) then Down(ct, src, s + 1, Run(ct, src, s + 1, chars), rest, caps) else []
      case Single(chars, Shortest) => Up(ct, src, s, Run(ct, src, s, chars), rest, caps)
      case Balance(open, close) =>
        var e := BalancedEnd(src, s, open, close);
        if e.None? then [] else Tries(ct, src, e.value, rest, caps)
      case Frontier(chars) => if AtFrontier(ct, src, s, chars) then Tries(ct, src, s, rest, caps) else []
      case End => if s == |src| then Tries(ct, src, s, rest, caps) else []
      case OpenCapture =>
        if |caps| >= LUA_MAXCAPTURES then [Bad(TooManyCaptures)] else Tries(ct, src, s, rest, caps + [Opened(s)])
      case PositionCapture =>
        if |caps| >= LUA_MAXCAPTURES then [Bad(TooManyCaptures)] else Tries(ct, src, s, rest, caps + [Position(s)])
      case CloseCapture =>
        var closed := CloseLast(caps, s);
        if closed.None? then [Bad(InvalidPatternCapture)] else Tries(ct, src, s, rest, closed.value)
      case BackReference(l) =>
        if !(0 <= l < |caps|) || caps[l].Opened? then [Bad(InvalidCaptureIndex)]
        else if Repeats(src, s, caps[l]) then Tries(ct, src, Again(s, caps[l]), rest, caps)
        else []
      case Broken(error) => [Bad(error)]
  }

  /** What comes after `n`, then `n - 1`, ... and no more characters. */
  function Down(ct: Classes, src: string, s: nat, n: nat, rest: seq<Item>, caps: seq<Capture>): seq<Try>
    decreases |rest|, n + 1
  {
    Tries(ct, src, s + n, rest, caps) + (if n == 0 then [] else Down(ct, src, s, n - 1, rest, caps))
  }

  /** What comes after no, one, ... and `n` more characters. */
  function Up(ct: Classes, src: string, s: nat, n: nat, rest: seq<Item>, caps: seq<Capture>): seq<Try>
    decreases |rest|, n + 1
  {
    Tries(ct, src, s, rest, caps) + (if n == 0 then [] else Up(ct, src, s + 1, n - 1, rest, caps))
  }

  // ----- what is tried is what can be derived -----

  /** `x` can come of the rest after `i` more characters. */
  predicate TriedAfter(ct: Classes, src: string, s: nat, i: nat, rest: seq<Item>, caps: seq<Capture>, x: Try) {
    x in Tries(ct, src, s + i, rest, caps)
  }

  lemma {:induction false} DownIs(ct: Classes, src: string, s: nat, n: nat, rest: seq<Item>, caps: seq<Capture>, x: Try)
    ensures x in Down(ct, src, s, n, rest, caps) <==>
      exists i: nat :: i <= n && TriedAfter(ct, src, s, i, rest, caps, x)
    decreases n
  {
    if n > 0 { DownIs(ct, src, s, n - 1, rest, caps, x); }
    if x in Tries(ct, src, s + n, rest, caps) { assert TriedAfter(ct, src, s, n, rest, caps, x); }
    if x in Down(ct, src, s, n, rest, caps) && x !in Tries(ct, src, s + n, rest, caps) {
      var i: nat :| i <= n - 1 && TriedAfter(ct, src, s, i, rest, caps, x);
      assert i <= n;
    }
  }

  /** What is tried after more characters from `s` is tried after one less from the next position. */
  lemma TriedShift(ct: Classes, src: string, s: nat, t: nat, n: nat, rest: seq<Item>, caps: seq<Capture>, x: Try)
    requires n > 0 && t == s + 1
    ensures (exists i: nat :: i <= n && TriedAfter(ct, src, s, i, rest, caps, x)) <==>
      x in Tries(ct, src, s, rest, caps) || exists i: nat :: i <= n - 1 && TriedAfter(ct, src, t, i, rest, caps, x)
  {
    hide Tries;
    if i: nat :| i <= n && TriedAfter(ct, src, s, i, rest, caps, x) {
      if i > 0 { assert TriedAfter(ct, src, t, i - 1, rest, caps, x); }
    }
    if x in Tries(ct, src, s, rest, caps) { assert TriedAfter(ct, src, s, 0, rest, caps, x); }
    if i: nat :| i <= n - 1 && TriedAfter(ct, src, t, i, rest, caps, x) {
      assert TriedAfter(ct, src, s, i + 1, rest, caps, x);
    }
  }

  lemma {:induction false} UpIs(ct: Classes, src: string, s: nat, n: nat, rest: seq<Item>, caps: seq<Capture>, x: Try)
    ensures x in Up(ct, src, s, n, rest, caps) <==> exists i: nat :: i <= n && TriedAfter(ct, src, s, i, rest, caps, x)
    decreases n
  {
    hide Tries;
    if n == 0 {
      assert TriedAfter(ct, src, s, 0, rest, caps, x) == (x in Tries(ct, src, s, rest, caps));
    } else {
      hide TriedAfter;
      UpIs(ct, src, s + 1, n - 1, rest, caps, x);
      TriedShift(ct, src, s, s + 1, n, rest, caps, x);
    }
  }

  /** The set takes as many characters as the run has, and no more. */
  lemma RunBound(ct: Classes, src: string, s: nat, n: nat, chars: CharSet)
    ensures AllIn(ct, src, s, n, chars) <==> n <= Run(ct, src, s, chars)
  {
    var r := Run(ct, src, s, chars);
    if n > r { assert !Hits(ct, src, s + r, chars); }
    if n <= r {
      forall i | s <= i < s + n
        ensures Hits(ct, src, i, chars)
      {
      }
    }
  }

  /** The counting of `matchbalance` finds the bracket that closes the first one. */
  lemma {:induction false} BalanceEndIs(src: string, s: nat, k: nat, depth: nat, open: char, close: char, e: nat)
    requires s < k <= |src| && depth >= 1 && depth == 1 + Depth(src, s + 1, k, open, close) && src[s] == open
    requires StaysOpen(src, s + 1, k, open, close)
    ensures BalanceEnd(src, k, depth, open, close) == Some(e) <==> e > k && Balanced(src, s, e, open, close)
    decreases |src| - k
  {
    if k < |src| {
      var next := 1 + Depth(src, s + 1, k + 1, open, close);
      if next == 0 {
        assert BalanceEnd(src, k, depth, open, close) == Some(k + 1);
      } else {
        BalanceEndIs(src, s, k + 1, next, open, close, e);
      }
    }
  }

  lemma BalancedIs(src: string, s: nat, open: char, close: char, e: nat)
    ensures BalancedEnd(src, s, open, close) == Some(e) <==> Balanced(src, s, e, open, close)
  {
    if s < |src| && src[s] == open { BalanceEndIs(src, s, s + 1, 1, open, close, e); }
  }

  /** What is tried is what can be derived: the matches with their captures, and the errors. */
  lemma {:induction false} TriesAreDerived(ct: Classes, src: string, s: nat, items: seq<Item>, caps: seq<Capture>,
                                           x: Try)
    ensures x in Tries(ct, src, s, items, caps) <==> Derives(ct, src, s, items, caps, x)
    decreases |items|
  {
    if items != [] {
      var rest := items[1..];
      forall t: nat, c
        ensures x in Tries(ct, src, t, rest, c) <==> Derives(ct, src, t, rest, c, x)
      {
        TriesAreDerived(ct, src, t, rest, c, x);
      }
      assert items == [items[0]] + rest;
      match items[0]
      case Single(chars, r) => SingleTries(ct, src, s, chars, r, rest, caps, x);
      case Balance(open, close) => BalanceTries(ct, src, s, open, close, rest, caps, x);
      case _ =>
    }
  }

  lemma BalanceTries(ct: Classes, src: string, s: nat, open: char, close: char, rest: seq<Item>, caps: seq<Capture>,
                     x: Try)
    requires forall t: nat, c :: x in Tries(ct, src, t, rest, c) <==> Derives(ct, src, t, rest, c, x)
    ensures x in Tries(ct, src, s, [Balance(open, close)] + rest, caps) <==>
            Derives(ct, src, s, [Balance(open, close)] + rest, caps, x)
  {
    var items := [Balance(open, close)] + rest;
    assert items[1..] == rest;
    var b := BalancedEnd(src, s, open, close);
    forall k: nat
      ensures b == Some(k) <==> Balanced(src, s, k, open, close)
    {
      BalancedIs(src, s, open, close, k);
    }
  }

  lemma SingleTries(ct: Classes, src: string, s: nat, chars: CharSet, r: Repeat, rest: seq<Item>, caps: seq<Capture>,
                    x: Try)
    requires forall t: nat, c :: x in Tries(ct, src, t, rest, c) <==> Derives(ct, src, t, rest, c, x)
    ensures x in Tries(ct, src, s, [Single(chars, r)] + rest, caps) <==>
            Derives(ct, src, s, [Single(chars, r)] + rest, caps, x)
  {
    hide Tries, Run, AllIn, TriedAfter, Hits;
    var items := [Single(chars, r)] + rest;
    assert items[1..] == rest;
    SingleTakes(ct, src, s, chars, r, rest, caps, x);
    SingleDerives(ct, src, s, chars, r, rest, caps, x);
  }

  /** `x` comes after a single item that takes `n` characters. */
  ghost predicate Takes(ct: Classes, src: string, s: nat, chars: CharSet, r: Repeat, rest: seq<Item>,
                        caps: seq<Capture>, x: Try, n: nat) {
    Allows(r, n) && n <= Run(ct, src, s, chars) && TriedAfter(ct, src, s, n, rest, caps, x)
  }

  lemma SingleDerives(ct: Classes, src: string, s: nat, chars: CharSet, r: Repeat, rest: seq<Item>, caps: seq<Capture>,
                      x: Try)
    requires forall t: nat, c :: x in Tries(ct, src, t, rest, c) <==> Derives(ct, src, t, rest, c, x)
    ensures (exists n: nat :: Takes(ct, src, s, chars, r, rest, caps, x, n)) <==>
      exists n: nat :: Allows(r, n) && AllIn(ct, src, s, n, chars) && Derives(ct, src, s + n, rest, caps, x)
  {
    hide Run, AllIn, Derives, Tries;
    if n: nat :| Takes(ct, src, s, chars, r, rest, caps, x, n) {
      RunBound(ct, src, s, n, chars);
    }
    if n: nat :| Allows(r, n) && AllIn(ct, src, s, n, chars) && Derives(ct, src, s + n, rest, caps, x) {
      RunBound(ct, src, s, n, chars);
      assert Takes(ct, src, s, chars, r, rest, caps, x, n);
    }
  }

  lemma SingleTakes(ct: Classes, src: string, s: nat, chars: CharSet, r: Repeat, rest: seq<Item>, caps: seq<Capture>,
                    x: Try)
    ensures x in Tries(ct, src, s, [Single(chars, r)] + rest, caps) <==>
            exists n: nat :: Takes(ct, src, s, chars, r, rest, caps, x, n)
  {
    var items, run := [Single(chars, r)] + rest, Run(ct, src, s, chars);
    assert items[1..] == rest && items[0] == Single(chars, r);
    assert Takes(ct, src, s, chars, r, rest, caps, x, 0) <==> Allows(r, 0) && x in Tries(ct, src, s, rest, caps);
    assert Takes(ct, src, s, chars, r, rest, caps, x, 1) <==>
           Allows(r, 1) && run >= 1 && x in Tries(ct, src, s + 1, rest, caps);
    match r
    case Once =>
    case AtMostOnce =>
    case Longest => DownIs(ct, src, s, run, rest, caps, x); TakesAll(ct, src, s, chars, r, rest, caps, x);
    case Shortest => UpIs(ct, src, s, run, rest, caps, x); TakesAll(ct, src, s, chars, r, rest, caps, x);
    case LongestNotEmpty => TakesSome(ct, src, s, chars, rest, caps, x);
  }

  lemma TakesAll(ct: Classes, src: string, s: nat, chars: CharSet, r: Repeat, rest: seq<Item>, caps: seq<Capture>,
                 x: Try)
    requires r == Longest || r == Shortest
    ensures (exists n: nat :: Takes(ct, src, s, chars, r, rest, caps, x, n)) <==>
      exists i: nat :: i <= Run(ct, src, s, chars) && TriedAfter(ct, src, s, i, rest, caps, x)
  {
    hide Run, TriedAfter;
    if i: nat :| i <= Run(ct, src, s, chars) && TriedAfter(ct, src, s, i, rest, caps, x) {
      assert Takes(ct, src, s, chars, r, rest, caps, x, i);
    }
  }

  lemma TakesSome(ct: Classes, src: string, s: nat, chars: CharSet, rest: seq<Item>, caps: seq<Capture>, x: Try)
    ensures (exists n: nat :: Takes(ct, src, s, chars, LongestNotEmpty, rest, caps, x, n)) <==>
      Hits(ct, src, s, chars) && x in Down(ct, src, s + 1, Run(ct, src, s + 1, chars), rest, caps)
  {
    hide Down, Tries, InSet;
    DownIs(ct, src, s + 1, Run(ct, src, s + 1, chars), rest, caps, x);
    if n: nat :| Takes(ct, src, s, chars, LongestNotEmpty, rest, caps, x, n) {
      assert TriedAfter(ct, src, s + 1, n - 1, rest, caps, x);
    }
    if Hits(ct, src, s, chars) {
      var t := s + 1;
      if i: nat :| i <= Run(ct, src, t, chars) && TriedAfter(ct, src, t, i, rest, caps, x) {
        assert Takes(ct, src, s, chars, LongestNotEmpty, rest, caps, x, i + 1);
      }
    }
  }
}
