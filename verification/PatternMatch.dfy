/** The pattern matcher (lua-5.1/lstrlib.c:176-534). */
module PatternMatch {

  import opened PatternItems
  import opened PatternCaptures
  import opened PatternLaws

  const CAP_UNFINISHED := -1
  const CAP_POSITION := -2

  /** `Fault` stands for an error raised by `luaL_error`. */
  datatype Outcome = Found(end: nat) | NoMatch | Fault(error: PatternError)

  datatype Scan = At(p: nat) | Malformed(error: PatternError)

  /** `match` returns, or goes back to its beginning for another position and part. */
  datatype Pass = Return(o: Outcome) | GoOn(t: nat, q: nat)

  /** `classend`. */
  method FindClassEnd(p: string, i: nat) returns (e: Scan)
    requires i < |p|
    ensures e == match ClassEnd(p, i)
      case Some(x) => At(x)
      case None => Malformed(ClassError(p, i))
  {
    if p[i] == L_ESC {
      e := if CharAt(p, i + 1) == '\0' then Malformed(EndsWithEscape) else At(i + 2);
    } else if p[i] == '[' {
      var q := i + 1;
      if CharAt(p, q) == '^' { q := q + 1; }
      ghost var q0 := q;
      var closed := false;
      while !closed
        invariant q <= |p| + 1 && SetEnd(p, q0) == if closed then Some(q + 1) else SetEnd(p, q)
        decreases !closed, |p| + 1 - q
      {
        if CharAt(p, q) == '\0' { return Malformed(MissingBracket); }
        var c := p[q];
        q := q + 1;
        if c == L_ESC && CharAt(p, q) != '\0' { q := q + 1; }
        closed := CharAt(p, q) == ']';
      }
      e := At(q + 1);
    } else {
      e := At(i + 1);
    }
  }

  /** `matchbracketclass`. */
  method MatchBracketClass(ct: Classes, c: char, p: string, i: nat, end: nat) returns (r: bool)
    requires i < end < |p|
    ensures r == InSet(ct, BracketSet(p, i, end + 1), c)
  {
    hide MatchClass, SomeCovers;
    var sig, q: nat := true, i;
    if CharAt(p, q + 1) == '^' {
      sig := false;
      q := q + 1;
    }
    q := q + 1;
    ghost var all := SomeCovers(ct, Elements(p, q, end), c);
    while q < end
      invariant all == SomeCovers(ct, Elements(p, q, end), c)
      decreases end - q
    {
      ghost var elements := Elements(p, q, end);
      FirstCovers(ct, elements[0], elements[1..], c);
      assert elements == [elements[0]] + elements[1..];
      if CharAt(p, q) == L_ESC {
        q := q + 1;
        if MatchClass(ct, c, CharAt(p, q)) { return sig; }
      } else if CharAt(p, q + 1) == '-' && q + 2 < end {
        q := q + 2;
        if CharAt(p, q - 2) <= c <= CharAt(p, q) { return sig; }
      } else if CharAt(p, q) == c {
        return sig;
      }
      q := q + 1;
    }
    NoneCover(ct, c);
    r := !sig;
  }

  /** `singlematch`. */
  method SingleMatch(ct: Classes, c: char, p: string, i: nat, e: nat) returns (r: bool)
    requires i < |p| && ClassEnd(p, i) == Some(e)
    ensures r == InSet(ct, ClassSet(p, i, e), c)
  {
    match p[i]
    case '.' => r := true;
    case '%' => r := MatchClass(ct, c, CharAt(p, i + 1));
    case '[' => r := MatchBracketClass(ct, c, p, i, e - 1);
    case x => r := x == c;
  }

  /** `matchbalance`. */
  method MatchBalance(src: string, s: nat, open: char, close: char) returns (e: Option<nat>)
    requires s <= |src|
    ensures e == BalancedEnd(src, s, open, close)
  {
    if s == |src| || src[s] != open { return None; }
    var k, cont := s + 1, 1;
    while k < |src|
      invariant cont >= 1 && BalanceEnd(src, k, cont, open, close) == BalanceEnd(src, s + 1, 1, open, close)
    {
      if src[k] == close {
        cont := cont - 1;
        if cont == 0 { return Some(k + 1); }
      } else if src[k] == open {
        cont := cont + 1;
      }
      k := k + 1;
    }
    e := None;
  }

  /** The longest repetition answers if it can, and shorter ones only if it cannot. */
  lemma DownAnswer(ct: Classes, src: string, s: nat, n: nat, rest: seq<Item>, caps: seq<Capture>)
    ensures First(Down(ct, src, s, n, rest, caps)) ==
            if Answer(ct, src, s + n, rest, caps) != None || n == 0 then Answer(ct, src, s + n, rest, caps)
            else First(Down(ct, src, s, n - 1, rest, caps))
  {
  }

  lemma UpAnswer(ct: Classes, src: string, s: nat, n: nat, rest: seq<Item>, caps: seq<Capture>)
    ensures First(Up(ct, src, s, n, rest, caps)) ==
            if Answer(ct, src, s, rest, caps) != None || n == 0 then Answer(ct, src, s, rest, caps)
            else First(Up(ct, src, s + 1, n - 1, rest, caps))
  {
  }

  lemma RunNext(ct: Classes, src: string, s: nat, chars: CharSet)
    ensures Run(ct, src, s, chars) == if Hits(ct, src, s, chars) then 1 + Run(ct, src, s + 1, chars) else 0
  {
  }

  /** What the fields of a capture stand for. */
  function CaptureOf(init: nat, len: int): Capture {
    if len == CAP_UNFINISHED then Opened(init)
    else if len < 0 then Position(init)
    else Closed(init, init + len)
  }

  function CapturesOf(inits: seq<nat>, lens: seq<int>): (caps: seq<Capture>)
    requires |inits| == |lens|
    ensures |caps| == |inits|
  {
    seq(|inits|, i requires 0 <= i < |inits| => CaptureOf(inits[i], lens[i]))
  }

  /** What a match returns of a capture: the characters, or a position counted from 1. */
  datatype Value = Text(s: string) | Number(n: nat)

  datatype Pushed<+T> = Ok(value: T) | Error(error: PatternError)

  predicate Shows(src: string, c: Capture, v: Value) {
    match c
    case Closed(start, end) => start <= end <= |src| && v == Text(src[start..end])
    case Position(at) => v == Number(at + 1)
    case Opened(_) => false
  }

  /** What is returned of the captures; of the whole match, if asked for, in place of none. */
  predicate AllShown(src: string, caps: seq<Capture>, whole: bool, s: nat, e: nat, values: seq<Value>) {
    if caps == [] && whole then s <= e <= |src| && values == [Text(src[s..e])]
    else |values| == |caps| && forall i :: 0 <= i < |caps| ==> Shows(src, caps[i], values[i])
  }

  /** `MatchState`. */
  class MatchState {
    const ct: Classes
    const src: string
    const pat: string
    var level: nat
    const init: array<nat>
    const len: array<int>

    constructor (classes: Classes, subject: string, pattern: string)
      ensures ct == classes && src == subject && pat == pattern && fresh(init) && fresh(len)
      ensures Valid() && Caps() == []
    {
      ct, src, pat, level := classes, subject, pattern, 0;
      init := new nat[LUA_MAXCAPTURES];
      len := new int[LUA_MAXCAPTURES];
    }

    ghost predicate Valid()
      reads this, len
    {
      && init.Length == LUA_MAXCAPTURES == len.Length && level <= LUA_MAXCAPTURES
      && forall i :: 0 <= i < level ==> len[i] >= CAP_POSITION
    }

    /** The captures so far. */
    ghost function Caps(): (caps: seq<Capture>)
      requires Valid()
      reads this, init, len
      ensures |caps| == level
    {
      CapturesOf(init[..level], len[..level])
    }

    /** The captures lie before position `s`. */
    ghost predicate Ready(s: nat)
      reads this, init, len
    {
      Valid() && s <= |src| && AllLie(Caps(), s)
    }

    ghost function Here(s: nat, p: nat): Option<Try>
      requires Valid()
      reads this, init, len
    {
      Answer(ct, src, s, Parse(pat, p), Caps())
    }

    /** The outcome is `a`: of a match, its end and the captures that there are now; otherwise the
        captures are as they were. */
    twostate predicate Comes(a: Option<Try>, o: Outcome)
      requires old(Valid())
      reads this, init, len
    {
      match o
      case Found(e) => Valid() && a == Some(Hit(e, Caps()))
      case NoMatch => Valid() && Caps() == old(Caps()) && a == None
      case Fault(error) => a == Some(Bad(error))
    }

    /** `capture_to_close`. */
    method CaptureToClose() returns (l: Option<nat>)
      requires Valid()
      ensures l == LastOpen(Flags(Caps()))
    {
      var i: nat := level;
      while i > 0
        invariant i <= level && forall j :: i <= j < level ==> !Flags(Caps())[j]
      {
        i := i - 1;
        assert Flags(Caps())[i] == (len[i] == CAP_UNFINISHED);
        if len[i] == CAP_UNFINISHED { return Some(i); }
      }
      l := None;
    }

    /** `match_capture`, with `check_capture`: the next characters must be those captured. */
    method MatchCapture(s: nat, digit: char) returns (o: Outcome)
      requires Ready(s) && IsDigit(digit)
      ensures
        var l := digit as int - '1' as int;
        if !(0 <= l < level) || Caps()[l].Opened? then o == Fault(InvalidCaptureIndex)
        else o == if Repeats(src, s, Caps()[l]) then Found(Again(s, Caps()[l])) else NoMatch
    {
      var l := digit as int - '1' as int;
      if !(0 <= l < level) || len[l] == CAP_UNFINISHED { return Fault(InvalidCaptureIndex); }
      assert Lies(Caps()[l], s);
      // as a `size_t`, the length of a position capture is more than any subject has
      if len[l] >= 0 && |src| - s >= len[l] && src[init[l]..init[l] + len[l]] == src[s..s + len[l]] {
        return Found(s + len[l]);
      }
      o := NoMatch;
    }

    /** `start_capture`. */
    method StartCapture(s: nat, p: nat, what: int) returns (o: Outcome)
      requires Ready(s) && p <= |pat| && (what == CAP_POSITION || what == CAP_UNFINISHED)
      modifies this, init, len
      ensures
        if old(level) >= LUA_MAXCAPTURES then o == Fault(TooManyCaptures)
        else
          var c := if what == CAP_POSITION then Position(s) else Opened(s);
          Comes(Answer(ct, src, s, Parse(pat, p), old(Caps()) + [c]), o)
      decreases |pat| - p, 3
    {
      hide Answer, Parse;
      if level >= LUA_MAXCAPTURES { return Fault(TooManyCaptures); }
      init[level] := s;
      len[level] := what;
      level := level + 1;
      assert Caps() == old(Caps()) + [if what == CAP_POSITION then Position(s) else Opened(s)];
      assert AllLie(Caps(), s);
      ghost var caps := Caps();
      o := Match(s, p);
      if o == NoMatch {
        level := level - 1;
        assert Caps() == caps[..level];
      }
    }

    /** `end_capture`. */
    method EndCapture(s: nat, p: nat) returns (o: Outcome)
      requires Ready(s) && p <= |pat|
      modifies this, init, len
      ensures
        var closed := old(CloseLast(Caps(), s));
        if closed == None then o == Fault(InvalidPatternCapture)
        else Comes(Answer(ct, src, s, Parse(pat, p), closed.value), o)
      decreases |pat| - p, 3
    {
      hide Answer, Parse;
      var l := CaptureToClose();
      if l == None { return Fault(InvalidPatternCapture); }
      var i := l.value;
      assert Lies(Caps()[i], s) && Flags(Caps())[i];
      len[i] := s - init[i];
      ghost var caps := Caps();
      assert caps == old(Caps())[i := Closed(init[i], s)];
      assert AllLie(caps, s);
      o := Match(s, p);
      if o == NoMatch {
        assert Caps()[i] == Closed(old(init[i]), s);
        len[i] := CAP_UNFINISHED;
        assert Caps() == caps[i := Opened(init[i])] == old(Caps());
      }
    }

    /** `max_expand`. */
    method MaxExpand(s: nat, p: nat, ep: nat) returns (o: Outcome)
      requires Ready(s) && p < |pat| && ClassEnd(pat, p) == Some(ep) && ep < |pat|
      modifies this, init, len
      ensures
        var chars := ClassSet(pat, p, ep);
        Comes(First(Down(ct, src, s, Run(ct, src, s, chars), Parse(pat, ep + 1), old(Caps()))), o)
      decreases |pat| - ep
    {
      hide Down, Up, Tries, Run, InSet, Parse, ClassSet, First, Lies;
      var i: nat := 0;
      ghost var chars := ClassSet(pat, p, ep);
      var more := true;
      while more
        invariant s + i <= |src|
        invariant Run(ct, src, s, chars) == i + if more then Run(ct, src, s + i, chars) else 0
        modifies {}
        decreases |src| - s - i, more
      {
        RunNext(ct, src, s + i, chars);
        more := false;
        if s + i < |src| { more := SingleMatch(ct, src[s + i], pat, p, ep); }
        if more { i := i + 1; }
      }
      ghost var rest, caps := Parse(pat, ep + 1), Caps();
      ghost var answer := First(Down(ct, src, s, i, rest, caps));
      while true
        invariant s + i <= |src| && Valid() && Caps() == caps && answer == First(Down(ct, src, s, i, rest, caps))
        decreases i
      {
        DownAnswer(ct, src, s, i, rest, caps);
        LieLater(caps, s, s + i);
        o := Match(s + i, ep + 1);
        if o != NoMatch { return; }
        if i == 0 { return; }
        i := i - 1;
      }
    }

    /** `min_expand`. */
    method MinExpand(s: nat, p: nat, ep: nat) returns (o: Outcome)
      requires Ready(s) && p < |pat| && ClassEnd(pat, p) == Some(ep) && ep < |pat|
      modifies this, init, len
      ensures
        var chars := ClassSet(pat, p, ep);
        Comes(First(Up(ct, src, s, Run(ct, src, s, chars), Parse(pat, ep + 1), old(Caps()))), o)
      decreases |pat| - ep
    {
      hide Down, Up, Tries, Run, InSet, Parse, ClassSet, First, Lies;
      ghost var chars, rest, caps := ClassSet(pat, p, ep), Parse(pat, ep + 1), Caps();
      ghost var answer := First(Up(ct, src, s, Run(ct, src, s, chars), rest, caps));
      var t := s;
      while true
        invariant s <= t <= |src| && Valid() && Caps() == caps
        invariant answer == First(Up(ct, src, t, Run(ct, src, t, chars), rest, caps))
        decreases |src| - t
      {
        UpAnswer(ct, src, t, Run(ct, src, t, chars), rest, caps);
        RunNext(ct, src, t, chars);
        LieLater(caps, s, t);
        o := Match(t, ep + 1);
        if o != NoMatch { return; }
        var m := false;
        if t < |src| { m := SingleMatch(ct, src[t], pat, p, ep); }
        if !m { return; }
        t := t + 1;
      }
    }

    /** What one pass through the `switch` of `match` has come to. */
    twostate predicate Passed(s: nat, p: nat, r: Pass)
      requires old(Valid())
      reads this, init, len
    {
      match r
      case Return(o) => Comes(old(Here(s, p)), o)
      case GoOn(t, q) =>
        && s <= t <= |src| && p < q <= |pat| && Valid() && Caps() == old(Caps())
        && Here(t, q) == old(Here(s, p))
    }

    /** `(` and `)`. */
    method MatchParenthesis(s: nat, p: nat) returns (r: Pass)
      requires Ready(s) && CharAt(pat, p) in ['(', ')']
      modifies this, init, len
      ensures Passed(s, p, r)
      decreases |pat| - p, 0
    {
      hide Answer, Lies, CloseLast;
      var o;
      ItemAnswer(ct, src, s, Parse(pat, p), Caps());
      if CharAt(pat, p) == ')' {
        assert Parse(pat, p)[1..] == Parse(pat, p + 1);
        o := EndCapture(s, p + 1);
      } else if CharAt(pat, p + 1) == ')' {
        assert Parse(pat, p)[1..] == Parse(pat, p + 2);
        o := StartCapture(s, p + 2, CAP_POSITION);
      } else {
        assert Parse(pat, p)[1..] == Parse(pat, p + 1);
        o := StartCapture(s, p + 1, CAP_UNFINISHED);
      }
      r := Return(o);
    }

    /** `%b`. */
    method MatchPair(s: nat, p: nat) returns (r: Pass)
      requires Ready(s) && CharAt(pat, p) == L_ESC && CharAt(pat, p + 1) == 'b'
      ensures Passed(s, p, r)
    {
      hide Answer, BalancedEnd, Lies;
      ItemAnswer(ct, src, s, Parse(pat, p), Caps());
      if CharAt(pat, p + 2) == '\0' || CharAt(pat, p + 3) == '\0' { return Return(Fault(UnbalancedPattern)); }
      assert Parse(pat, p)[1..] == Parse(pat, p + 4);
      var e := MatchBalance(src, s, pat[p + 2], pat[p + 3]);
      if e == None { return Return(NoMatch); }
      BalancedIs(src, s, pat[p + 2], pat[p + 3], e.value);
      r := GoOn(e.value, p + 4);
    }

    /** `%f`. */
    method MatchFrontier(s: nat, p: nat) returns (r: Pass)
      requires Ready(s) && CharAt(pat, p) == L_ESC && CharAt(pat, p + 1) == 'f'
      ensures Passed(s, p, r)
    {
      hide Answer, InSet, BracketSet, Lies, SetEnd;
      ItemAnswer(ct, src, s, Parse(pat, p), Caps());
      if CharAt(pat, p + 2) != '[' { return Return(Fault(MissingSetAfterFrontier)); }
      var ep := FindClassEnd(pat, p + 2);
      if ep.Malformed? { return Return(Fault(ep.error)); }
      assert Parse(pat, p)[1..] == Parse(pat, ep.p);
      var previous := if s == 0 then '\0' else src[s - 1];
      var before := MatchBracketClass(ct, previous, pat, p + 2, ep.p - 1);
      if before { return Return(NoMatch); }
      var here := MatchBracketClass(ct, CharAt(src, s), pat, p + 2, ep.p - 1);
      r := if here then GoOn(s, ep.p) else Return(NoMatch);
    }

    /** `%0` to `%9`. */
    method MatchReference(s: nat, p: nat) returns (r: Pass)
      requires Ready(s) && CharAt(pat, p) == L_ESC && IsDigit(CharAt(pat, p + 1))
      ensures Passed(s, p, r)
    {
      hide Answer, Lies;
      ItemAnswer(ct, src, s, Parse(pat, p), Caps());
      assert Parse(pat, p)[1..] == Parse(pat, p + 2);
      var o := MatchCapture(s, CharAt(pat, p + 1));
      if !o.Found? { return Return(o); }
      r := GoOn(o.end, p + 2);
    }

    /** A class and its repetition. */
    method MatchSingle(s: nat, p: nat) returns (r: Pass)
      requires Ready(s) && BeginsClass(pat, p)
      modifies this, init, len
      ensures Passed(s, p, r)
      decreases |pat| - p, 1
    {
      hide Answer, Parse, InSet, ClassSet, ClassEnd, Down, Up, Run, First, Lies;
      var scan := FindClassEnd(pat, p);
      if scan.Malformed? {
        OpenClassText(ct, src, s, pat, p, Caps());
        return Return(Fault(scan.error));
      }
      var ep := scan.p;
      var m := false;
      if s < |src| { m := SingleMatch(ct, src[s], pat, p, ep); }
      SingleItem(pat, p, ep);
      ghost var rest := Parse(pat, AfterRepeat(pat, ep));
      assert Parse(pat, p)[1..] == rest;
      ItemAnswer(ct, src, s, Parse(pat, p), Caps());
      LieLater(Caps(), s, if m then s + 1 else s);
      match CharAt(pat, ep)
      case '?' =>
        if m {
          var o := Match(s + 1, ep + 1);
          if o != NoMatch { return Return(o); }
        }
        r := GoOn(s, ep + 1);
      case '*' =>
        var o := MaxExpand(s, p, ep);
        r := Return(o);
      case '+' =>
        if !m { return Return(NoMatch); }
        var o := MaxExpand(s + 1, p, ep);
        r := Return(o);
      case '-' =>
        var o := MinExpand(s, p, ep);
        r := Return(o);
      case _ =>
        r := if m then GoOn(s + 1, ep) else Return(NoMatch);
    }

    /** `match`: a jump back to the beginning of the C function goes round the loop. */
    method Match(s0: nat, p0: nat) returns (o: Outcome)
      requires Ready(s0) && p0 <= |pat|
      modifies this, init, len
      ensures Comes(old(Here(s0, p0)), o)
      decreases |pat| - p0, 2
    {
      hide Answer, Parse, ClassEnd, Lies;
      var s: nat, p: nat := s0, p0;
      while true
        invariant s0 <= s <= |src| && p0 <= p <= |pat| && Valid() && Caps() == old(Caps())
        invariant Here(s, p) == old(Here(s0, p0))
        decreases |pat| - p
      {
        var c, d := CharAt(pat, p), CharAt(pat, p + 1);
        var r;
        LieLater(Caps(), s0, s);
        if c == '(' || c == ')' {
          r := MatchParenthesis(s, p);
        } else if c == L_ESC && d == 'b' {
          r := MatchPair(s, p);
        } else if c == L_ESC && d == 'f' {
          r := MatchFrontier(s, p);
        } else if c == L_ESC && IsDigit(d) {
          r := MatchReference(s, p);
        } else if c == '\0' {
          EndText(ct, src, s, pat, p, Caps());
          r := Return(Found(s));
        } else if c == '$' && d == '\0' {
          EndText(ct, src, s, pat, p, Caps());
          r := Return(if s == |src| then Found(s) else NoMatch);
        } else {
          r := MatchSingle(s, p);
        }
        if r.Return? { return r.o; }
        s, p := r.t, r.q;
      }
    }

    /** `push_onecapture`. */
    method PushOneCapture(i: nat, s: nat, e: nat) returns (r: Pushed<Value>)
      requires Ready(e) && s <= e
      ensures
        if i < level then if Caps()[i].Opened? then r == Error(UnfinishedCapture)
                          else r.Ok? && Shows(src, Caps()[i], r.value)
        else r == if i == 0 then Ok(Text(src[s..e])) else Error(InvalidCaptureIndex)
    {
      if i >= level {
        return if i == 0 then Ok(Text(src[s..e])) else Error(InvalidCaptureIndex);
      }
      assert Lies(Caps()[i], e);
      var l := len[i];
      if l == CAP_UNFINISHED { return Error(UnfinishedCapture); }
      r := Ok(if l == CAP_POSITION then Number(init[i] + 1) else Text(src[init[i]..init[i] + l]));
    }

    /** `push_captures`. */
    method PushCaptures(whole: bool, s: nat, e: nat) returns (r: Pushed<seq<Value>>)
      requires Ready(e) && s <= e
      ensures
        match r
        case Ok(values) => AllShown(src, Caps(), whole, s, e, values)
        case Error(error) => error == UnfinishedCapture && exists c :: c in Caps() && c.Opened?
    {
      hide Lies, Shows;
      var nlevels := if level == 0 && whole then 1 else level;
      var values: seq<Value> := [];
      for i := 0 to nlevels
        invariant |values| == i
        invariant forall j :: 0 <= j < i && j < level ==> Shows(src, Caps()[j], values[j])
        invariant i > 0 && level == 0 ==> values == [Text(src[s..e])]
      {
        var v := PushOneCapture(i, s, e);
        if v.Error? {
          assert Caps()[i] in Caps();
          return Error(v.error);
        }
        values := values + [v.value];
      }
      r := Ok(values);
    }

    /** After a match, parentheses that enclose `b` have captured what `b` has matched, between what
        comes before them and what comes after. */
    lemma Captured(s: nat, e: nat, a: seq<Item>, b: seq<Item>, c: seq<Item>)
      requires Valid() && s <= |src| && ClosesOwn(b) && NoReferences(a) && NoReferences(b) && NoReferences(c)
      requires Answer(ct, src, s, a + ([OpenCapture] + (b + ([CloseCapture] + c))), []) == Some(Hit(e, Caps()))
      ensures
        var n := Count(a);
        && n < level && len[n] >= 0 && InLanguage(ct, src, s, init[n], a)
        && InLanguage(ct, src, init[n], init[n] + len[n], b) && InLanguage(ct, src, init[n] + len[n], e, c)
    {
      hide Answer, InLanguage, Derives, ClosesOwn, NoReferences;
      var items := a + ([OpenCapture] + (b + ([CloseCapture] + c)));
      AnswerIsDerived(ct, src, s, items, []);
      CaptureInLanguage(ct, src, s, a, b, c, e, Caps());
    }

    /** Parentheses with nothing in them have captured the position between the two parts. */
    lemma PositionCaptured(s: nat, e: nat, a: seq<Item>, c: seq<Item>)
      requires Valid() && s <= |src| && NoReferences(a) && NoReferences(c)
      requires Answer(ct, src, s, a + ([PositionCapture] + c), []) == Some(Hit(e, Caps()))
      ensures
        var n := Count(a);
        && n < level && len[n] == CAP_POSITION && InLanguage(ct, src, s, init[n], a)
        && InLanguage(ct, src, init[n], e, c)
    {
      hide Answer, InLanguage, Derives, NoReferences;
      AnswerIsDerived(ct, src, s, a + ([PositionCapture] + c), []);
      PositionInLanguage(ct, src, s, a, c, e, Caps());
    }
  }

  predicate StartsAt(src: string, from: nat, anchor: bool, s: nat) {
    from <= s <= |src| && (anchor ==> s == from)
  }

  datatype FindOutcome = Match(start: nat, end: nat, values: seq<Value>) | Nothing | Failure(error: PatternError)

  /** `s` is the first position from `from` on where there is an answer, and `x` is that answer. */
  ghost predicate FirstAt(ct: Classes, src: string, from: nat, anchor: bool, items: seq<Item>, s: nat, x: Try) {
    && StartsAt(src, from, anchor, s) && Answer(ct, src, s, items, []) == Some(x)
    && forall t: nat :: from <= t < s ==> Answer(ct, src, t, items, []) == None
  }

  /** What is found is the match at the leftmost position that has one, with what it captures. */
  ghost predicate FindsLeftmost(ct: Classes, src: string, from: nat, anchor: bool, items: seq<Item>, whole: bool,
                                o: FindOutcome) {
    match o
    case Match(s, e, values) =>
      exists caps :: FirstAt(ct, src, from, anchor, items, s, Hit(e, caps)) && AllShown(src, caps, whole, s, e, values)
    case Nothing => forall s: nat :: StartsAt(src, from, anchor, s) ==> Answer(ct, src, s, items, []) == None
    case Failure(error) =>
      exists s: nat, x ::
        && FirstAt(ct, src, from, anchor, items, s, x)
        && if x.Bad? then x.error == error else error == UnfinishedCapture && exists c :: c in x.caps && c.Opened?
  }

  /** Where the items match from position `from` on; with an anchor, at `from` only. */
  ghost predicate MatchesFrom(ct: Classes, src: string, from: nat, anchor: bool, items: seq<Item>) {
    exists s: nat, e: nat :: StartsAt(src, from, anchor, s) && InLanguage(ct, src, s, e, items)
  }

  /** `str_find_aux` for a search that is not plain: `string.match` returns the whole match if
      there are no captures, and `string.find` does not. */
  method Find(ct: Classes, src: string, pat: string, from: nat, find: bool) returns (o: FindOutcome)
    requires from <= |src|
    ensures
      var anchor := CharAt(pat, 0) == '^';
      FindsLeftmost(ct, src, from, anchor, Parse(pat, if anchor then 1 else 0), !find, o)
  {
    hide Parse, Answer, Lies;
    var anchor := CharAt(pat, 0) == '^';
    var p := if anchor then 1 else 0;
    ghost var items := Parse(pat, p);
    var ms := new MatchState(ct, src, pat);
    var s1 := from;
    while true
      invariant from <= s1 <= |src| && ms.src == src && ms.pat == pat && ms.ct == ct && (anchor ==> s1 == from)
      invariant ms.init.Length == LUA_MAXCAPTURES == ms.len.Length && fresh(ms) && fresh(ms.init) && fresh(ms.len)
      invariant forall t: nat :: from <= t < s1 ==> Answer(ct, src, t, items, []) == None
      decreases |src| - s1
    {
      ms.level := 0;
      assert ms.Caps() == [];
      var r := ms.Match(s1, p);
      match r
      case Found(e) =>
        assert FirstAt(ct, src, from, anchor, items, s1, Hit(e, ms.Caps()));
        HitLies(ct, src, s1, items, e, ms.Caps());
        var values := ms.PushCaptures(!find, s1, e);
        o := match values case Ok(vs) => FindOutcome.Match(s1, e, vs) case Error(error) => Failure(error);
        return;
      case Fault(error) =>
        assert FirstAt(ct, src, from, anchor, items, s1, Bad(error));
        return Failure(error);
      case NoMatch =>
        if s1 == |src| || anchor { return Nothing; }
        s1 := s1 + 1;
    }
  }

  lemma HitLies(ct: Classes, src: string, s: nat, items: seq<Item>, e: nat, caps: seq<Capture>)
    requires Answer(ct, src, s, items, []) == Some(Hit(e, caps)) && s <= |src|
    ensures s <= e <= |src| && AllLie(caps, e)
  {
    hide Answer, Derives;
    AnswerIsDerived(ct, src, s, items, []);
    DerivesKeeps(ct, src, s, items, [], e, caps);
  }

  /** A nested pattern without back references fails only for a capture that is left open, and finds
      nothing only if it matches nowhere. */
  lemma FindsInLanguage(ct: Classes, src: string, from: nat, anchor: bool, items: seq<Item>, whole: bool,
                        o: FindOutcome)
    requires NoReferences(items) && Nested(items, []) && FindsLeftmost(ct, src, from, anchor, items, whole, o)
    ensures o == Nothing <==> !MatchesFrom(ct, src, from, anchor, items)
    ensures o.Match? ==> InLanguage(ct, src, o.start, o.end, items)
    ensures o.Failure? ==> o.error == UnfinishedCapture && !ClosesOwn(items)
  {
    hide Answer, InLanguage, NoReferences, Nested, ClosesOwn;
    assert Flags([]) == [];
    forall s: nat
      ensures Answer(ct, src, s, items, []) == None <==> forall e: nat :: !InLanguage(ct, src, s, e, items)
      ensures Answer(ct, src, s, items, []).Some? ==>
        && Answer(ct, src, s, items, []).value.Hit?
        && InLanguage(ct, src, s, Answer(ct, src, s, items, []).value.end, items)
    {
      AnswerIsLanguage(ct, src, s, items, []);
    }
    if o.Failure? {
      var s: nat, x :| FirstAt(ct, src, from, anchor, items, s, x) &&
        if x.Bad? then x.error == o.error else o.error == UnfinishedCapture && exists c :: c in x.caps && c.Opened?;
      AnswerIsDerived(ct, src, s, items, []);
      if ClosesOwn(items) { NoneLeftOpen(ct, src, s, items, x); }
    }
  }

  lemma NoneLeftOpen(ct: Classes, src: string, s: nat, items: seq<Item>, x: Try)
    requires Derives(ct, src, s, items, [], x) && x.Hit? && ClosesOwn(items)
    ensures forall c :: c in x.caps ==> !c.Opened?
  {
    hide Derives;
    var none: seq<Capture> := [];
    assert none + none == none && Flags(none) == [];
    DerivesOwn(ct, src, s, items, [], [], x.end, x.caps);
    assert x.caps[0..] == x.caps;
    forall c | c in x.caps
      ensures !c.Opened?
    {
      var i :| 0 <= i < |x.caps| && x.caps[i] == c;
      assert Flags(x.caps)[i] in Flags(x.caps);
    }
  }
}
