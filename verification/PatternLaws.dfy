/** What the text of a pattern means (section 5.4.1 of the Lua 5.1 Reference Manual): for every kind of
    part, what is answered at a position by what the rest of the pattern answers further on. */
module PatternLaws {

  import opened PatternItems
  import opened PatternCaptures

  function First(tries: seq<Try>): Option<Try> {
    if tries == [] then None else Some(tries[0])
  }

  /** What a match must answer: the first that can come of the items, in the order of priority. */
  function Answer(ct: Classes, src: string, s: nat, items: seq<Item>, caps: seq<Capture>): Option<Try> {
    First(Tries(ct, src, s, items, caps))
  }

  /** There is an answer exactly if something can be derived, and then that is derived. */
  lemma AnswerIsDerived(ct: Classes, src: string, s: nat, items: seq<Item>, caps: seq<Capture>)
    ensures Answer(ct, src, s, items, caps) == None <==> forall x :: !Derives(ct, src, s, items, caps, x)
    ensures
      var a := Answer(ct, src, s, items, caps);
      a.Some? ==> Derives(ct, src, s, items, caps, a.value)
  {
    hide Tries, Derives;
    var tries := Tries(ct, src, s, items, caps);
    forall x
      ensures x in tries <==> Derives(ct, src, s, items, caps, x)
    {
      TriesAreDerived(ct, src, s, items, caps, x);
    }
    if tries != [] {
      assert tries[0] in tries && Derives(ct, src, s, items, caps, tries[0]);
    }
  }

  /** Without back references, nested items match from `s` exactly if what follows there, up to some
      end, is in their language. */
  lemma AnswerIsLanguage(ct: Classes, src: string, s: nat, items: seq<Item>, caps: seq<Capture>)
    requires NoReferences(items) && Nested(items, Flags(caps))
    ensures
      var a := Answer(ct, src, s, items, caps);
      && (a == None <==> forall e: nat :: !InLanguage(ct, src, s, e, items))
      && (a.Some? ==> a.value.Hit? && InLanguage(ct, src, s, a.value.end, items))
  {
    hide Answer, Derives, InLanguage, Nested, NoReferences, Flags;
    AnswerIsDerived(ct, src, s, items, caps);
    var a := Answer(ct, src, s, items, caps);
    if a.Some? {
      NestedSafe(ct, src, s, items, caps, a.value);
      MatchedInLanguage(ct, src, s, items, caps, a.value.end, a.value.caps);
    } else if e: nat :| InLanguage(ct, src, s, e, items) {
      var final := LanguageMatched(ct, src, s, items, caps, e);
    }
  }

  // ----- repetition -----

  /** A class may take `n` characters: so many are in the set, and so many are allowed. */
  ghost predicate CanTake(ct: Classes, src: string, s: nat, n: nat, chars: CharSet, least: nat, most: Option<nat>) {
    least <= n && (most.Some? ==> n <= most.value) && AllIn(ct, src, s, n, chars)
  }

  function AnswerAfter(ct: Classes, src: string, s: nat, n: nat, rest: seq<Item>, caps: seq<Capture>): Option<Try> {
    Answer(ct, src, s + n, rest, caps)
  }

  /** The answer is that of the rest after the most characters, or the fewest, after which it has one. */
  ghost predicate Chosen(ct: Classes, src: string, s: nat, chars: CharSet, least: nat, most: Option<nat>,
                         longest: bool, rest: seq<Item>, caps: seq<Capture>, a: Option<Try>) {
    match a
    case None =>
      forall n: nat :: CanTake(ct, src, s, n, chars, least, most) ==> AnswerAfter(ct, src, s, n, rest, caps) == None
    case Some(_) =>
      exists n: nat ::
        && CanTake(ct, src, s, n, chars, least, most) && AnswerAfter(ct, src, s, n, rest, caps) == a
        && forall m: nat :: CanTake(ct, src, s, m, chars, least, most) && (if longest then n < m else m < n) ==>
             AnswerAfter(ct, src, s, m, rest, caps) == None
  }

  lemma {:induction false} DownChosen(ct: Classes, src: string, s: nat, n: nat, rest: seq<Item>, caps: seq<Capture>)
    returns (i: nat)
    ensures
      var a := First(Down(ct, src, s, n, rest, caps));
      && i <= n && AnswerAfter(ct, src, s, i, rest, caps) == a
      && (forall m :: i < m <= n ==> AnswerAfter(ct, src, s, m, rest, caps) == None)
      && (a == None ==> i == 0)
    decreases n
  {
    hide Tries;
    if AnswerAfter(ct, src, s, n, rest, caps) == None && n > 0 {
      i := DownChosen(ct, src, s, n - 1, rest, caps);
    } else {
      i := n;
    }
  }

  lemma {:induction false} UpChosen(ct: Classes, src: string, s: nat, n: nat, rest: seq<Item>, caps: seq<Capture>)
    returns (i: nat)
    ensures
      var a := First(Up(ct, src, s, n, rest, caps));
      && i <= n && AnswerAfter(ct, src, s, i, rest, caps) == a
      && (forall m: nat :: m < i ==> AnswerAfter(ct, src, s, m, rest, caps) == None)
      && (a == None ==> i == n)
    decreases n
  {
    hide Tries;
    assert AnswerAfter(ct, src, s, 0, rest, caps) == Answer(ct, src, s, rest, caps);
    if Answer(ct, src, s, rest, caps) == None && n > 0 {
      var j := UpChosen(ct, src, s + 1, n - 1, rest, caps);
      i := j + 1;
      assert AnswerAfter(ct, src, s + 1, j, rest, caps) == AnswerAfter(ct, src, s, i, rest, caps);
      forall m: nat | m < i
        ensures AnswerAfter(ct, src, s, m, rest, caps) == None
      {
        assert m > 0 ==> AnswerAfter(ct, src, s + 1, m - 1, rest, caps) == AnswerAfter(ct, src, s, m, rest, caps);
      }
    } else {
      i := 0;
    }
  }

  /** The longest repetition takes the most characters that it can, the shortest the fewest. */
  lemma LongestChosen(ct: Classes, src: string, s: nat, chars: CharSet, rest: seq<Item>, caps: seq<Capture>)
    ensures Chosen(ct, src, s, chars, 0, None, true, rest, caps,
                   First(Down(ct, src, s, Run(ct, src, s, chars), rest, caps)))
  {
    hide AllIn, Down, Hits, Run, AnswerAfter;
    var run := Run(ct, src, s, chars);
    forall m: nat
      ensures CanTake(ct, src, s, m, chars, 0, None) <==> m <= run
    {
      RunBound(ct, src, s, m, chars);
    }
    var i := DownChosen(ct, src, s, run, rest, caps);
    assert CanTake(ct, src, s, i, chars, 0, None);
    var a := First(Down(ct, src, s, run, rest, caps));
    if a == None {
      assert forall m: nat :: m <= run ==> AnswerAfter(ct, src, s, m, rest, caps) == None;
    }
  }

  lemma ShortestChosen(ct: Classes, src: string, s: nat, chars: CharSet, rest: seq<Item>, caps: seq<Capture>)
    ensures Chosen(ct, src, s, chars, 0, None, false, rest, caps,
                   First(Up(ct, src, s, Run(ct, src, s, chars), rest, caps)))
  {
    hide AllIn, Up, Hits, Run, AnswerAfter;
    var run := Run(ct, src, s, chars);
    forall m: nat
      ensures CanTake(ct, src, s, m, chars, 0, None) <==> m <= run
    {
      RunBound(ct, src, s, m, chars);
    }
    var i := UpChosen(ct, src, s, run, rest, caps);
    assert CanTake(ct, src, s, i, chars, 0, None);
    var a := First(Up(ct, src, s, run, rest, caps));
    if a == None {
      assert forall m: nat :: m <= run ==> AnswerAfter(ct, src, s, m, rest, caps) == None;
    }
  }

  /** One character and then the most: at least one. */
  lemma LongestNotEmptyChosen(ct: Classes, src: string, s: nat, chars: CharSet, rest: seq<Item>, caps: seq<Capture>)
    ensures Chosen(ct, src, s, chars, 1, None, true, rest, caps,
                   if Hits(ct, src, s, chars) then First(Down(ct, src, s + 1, Run(ct, src, s + 1, chars), rest, caps))
                   else None)
  {
    hide Down, InSet, AnswerAfter;
    if Hits(ct, src, s, chars) {
      LongestChosen(ct, src, s + 1, chars, rest, caps);
      var a := First(Down(ct, src, s + 1, Run(ct, src, s + 1, chars), rest, caps));
      ChosenAfterOne(ct, src, s, s + 1, chars, rest, caps, a);
    } else {
      assert forall m: nat :: CanTake(ct, src, s, m, chars, 1, None) ==> Hits(ct, src, s, chars);
    }
  }

  lemma OneMore(ct: Classes, src: string, s: nat, m: nat, chars: CharSet)
    requires Hits(ct, src, s, chars)
    ensures AllIn(ct, src, s, m + 1, chars) <==> AllIn(ct, src, s + 1, m, chars)
  {
  }

  lemma AfterOne(ct: Classes, src: string, s: nat, m: nat, rest: seq<Item>, caps: seq<Capture>)
    ensures AnswerAfter(ct, src, s, m + 1, rest, caps) == AnswerAfter(ct, src, s + 1, m, rest, caps)
  {
  }

  lemma ChosenAfterOne(ct: Classes, src: string, s: nat, t: nat, chars: CharSet, rest: seq<Item>, caps: seq<Capture>,
                       a: Option<Try>)
    requires Hits(ct, src, s, chars) && t == s + 1 && Chosen(ct, src, t, chars, 0, None, true, rest, caps, a)
    ensures Chosen(ct, src, s, chars, 1, None, true, rest, caps, a)
  {
    hide Answer, AllIn, Hits;
    forall m: nat | m > 0
      ensures CanTake(ct, src, s, m, chars, 1, None) <==> CanTake(ct, src, t, m - 1, chars, 0, None)
      ensures AnswerAfter(ct, src, s, m, rest, caps) == AnswerAfter(ct, src, t, m - 1, rest, caps)
    {
      OneMore(ct, src, s, m - 1, chars);
      AfterOne(ct, src, s, m - 1, rest, caps);
    }
    if a.Some? {
      var n: nat :| CanTake(ct, src, t, n, chars, 0, None) && AnswerAfter(ct, src, t, n, rest, caps) == a &&
        forall m: nat :: CanTake(ct, src, t, m, chars, 0, None) && n < m ==>
          AnswerAfter(ct, src, t, m, rest, caps) == None;
      var k := n + 1;
      assert CanTake(ct, src, s, k, chars, 1, None) && AnswerAfter(ct, src, s, k, rest, caps) == a;
    }
  }

  /** Once, or at most once. */
  lemma FewChosen(ct: Classes, src: string, s: nat, chars: CharSet, r: Repeat, rest: seq<Item>, caps: seq<Capture>)
    requires r == Once || r == AtMostOnce
    ensures Chosen(ct, src, s, chars, Least(r), Some(1), true, rest, caps,
                   Answer(ct, src, s, [Single(chars, r)] + rest, caps))
  {
    hide InSet;
    var items := [Single(chars, r)] + rest;
    assert items[1..] == rest && items[0] == Single(chars, r);
    assert CanTake(ct, src, s, 1, chars, Least(r), Some(1)) <==> Hits(ct, src, s, chars);
    assert CanTake(ct, src, s, 0, chars, Least(r), Some(1)) <==> r == AtMostOnce;
    assert AnswerAfter(ct, src, s, 1, rest, caps) == Answer(ct, src, s + 1, rest, caps);
    assert AnswerAfter(ct, src, s, 0, rest, caps) == Answer(ct, src, s, rest, caps);
  }

  function Least(r: Repeat): nat {
    if r == Once || r == LongestNotEmpty then 1 else 0
  }

  function Most(r: Repeat): Option<nat> {
    if r == Once || r == AtMostOnce then Some(1) else None
  }

  /** How many characters a single item takes. */
  lemma SingleChosen(ct: Classes, src: string, s: nat, chars: CharSet, r: Repeat, rest: seq<Item>, caps: seq<Capture>)
    ensures Chosen(ct, src, s, chars, Least(r), Most(r), r != Shortest, rest, caps,
                   Answer(ct, src, s, [Single(chars, r)] + rest, caps))
  {
    hide AllIn, Down, Up, Hits, Chosen;
    var items := [Single(chars, r)] + rest;
    assert items[1..] == rest && items[0] == Single(chars, r);
    match r
    case Longest => LongestChosen(ct, src, s, chars, rest, caps);
    case LongestNotEmpty => LongestNotEmptyChosen(ct, src, s, chars, rest, caps);
    case Shortest => ShortestChosen(ct, src, s, chars, rest, caps);
    case _ => FewChosen(ct, src, s, chars, r, rest, caps);
  }

  // ----- classes -----

  /** A lower-case letter stands for its class of characters, the upper-case letter for all others;
      `%z` is the character zero, and any other character stands for itself. */
  lemma ClassLetters(ct: Classes, c: char, i: nat)
    requires i < 9
    ensures MatchClass(ct, c, "acdlpsuwx"[i]) == ct("acdlpsuwx"[i], c)
    ensures MatchClass(ct, c, "ACDLPSUWX"[i]) == !ct("acdlpsuwx"[i], c)
    ensures MatchClass(ct, c, 'z') == (c == '\0') && MatchClass(ct, c, 'Z') == (c != '\0')
  {
    assert "acdlpsuwx"[i] in "acdlpsuwx" && ToLower("ACDLPSUWX"[i]) == "acdlpsuwx"[i] && 'z' !in "acdlpsuwx";
  }

  lemma OtherLetters(ct: Classes, c: char, cl: char)
    requires cl !in "acdlpsuwxzACDLPSUWXZ"
    ensures MatchClass(ct, c, cl) == (c == cl)
  {
    if ToLower(cl) in "acdlpsuwxz" { LetterOf(cl); }
  }

  lemma LetterOf(cl: char)
    requires ToLower(cl) in "acdlpsuwxz"
    ensures cl in "acdlpsuwxzACDLPSUWXZ"
  {
    var i :| 0 <= i < 10 && "acdlpsuwxz"[i] == ToLower(cl);
    assert cl == "acdlpsuwxzACDLPSUWXZ"[i] || cl == "acdlpsuwxzACDLPSUWXZ"[10 + i];
  }

  /** What stands for one character: `.`, `%` and a letter, a set, or the character itself. */
  lemma ClassText(ct: Classes, p: string, i: nat, e: nat, c: char)
    requires i < e <= |p|
    ensures
      var here := InSet(ct, ClassSet(p, i, e), c);
      && (p[i] == '.' ==> here)
      && (p[i] == '%' && i + 1 < |p| ==> here == MatchClass(ct, c, p[i + 1]))
      && (p[i] == '[' && i + 1 < e ==>
            here == if CharAt(p, i + 1) == '^' then !InBrackets(ct, p, i + 2, e - 1, c)
                    else InBrackets(ct, p, i + 1, e - 1, c))
      && (p[i] !in ".%[" ==> here == (c == p[i]))
  {
    if p[i] == '[' && i + 1 < e { BracketsText(ct, p, AfterCaret(p, i + 1), e - 1, c); }
    assert p[i] !in ".%[" ==> p[i] != ".%["[0] && p[i] != ".%["[1] && p[i] != ".%["[2];
  }

  /** The text from `q` to before `end` has the character: by a class, by a range, or itself. */
  predicate InBrackets(ct: Classes, p: string, q: nat, end: nat, c: char)
    requires end <= |p|
    decreases end - q
  {
    q < end &&
    if p[q] == '%' then MatchClass(ct, c, CharAt(p, q + 1)) || InBrackets(ct, p, q + 2, end, c)
    else if q + 2 < end && p[q + 1] == '-' then p[q] <= c <= p[q + 2] || InBrackets(ct, p, q + 3, end, c)
    else c == p[q] || InBrackets(ct, p, q + 1, end, c)
  }

  lemma {:induction false} BracketsText(ct: Classes, p: string, q: nat, end: nat, c: char)
    requires end <= |p|
    ensures SomeCovers(ct, Elements(p, q, end), c) == InBrackets(ct, p, q, end, c)
    decreases end - q
  {
    hide MatchClass, SomeCovers;
    if q < end {
      var elements := Elements(p, q, end);
      assert elements == [elements[0]] + elements[1..];
      FirstCovers(ct, elements[0], elements[1..], c);
      var range := q + 2 < end && p[q + 1] == '-';
      BracketsText(ct, p, if p[q] == '%' then q + 2 else if range then q + 3 else q + 1, end, c);
    } else {
      NoneCover(ct, c);
    }
  }

  lemma NoneCover(ct: Classes, c: char)
    ensures !SomeCovers(ct, [], c)
  {
  }

  /** A set ends at the first bracket behind its first character that no `%` comes before. */
  lemma {:induction false} SetEndText(p: string, q: nat, e: nat)
    requires SetEnd(p, q) == Some(e)
    ensures q + 2 <= e <= |p| && p[e - 1] == ']'
    ensures forall k: nat :: q < k < e - 1 && p[k] == ']' ==> p[k - 1] == '%'
    decreases |p| - q
  {
    var next := if CharAt(p, q) == L_ESC && CharAt(p, q + 1) != '\0' then q + 2 else q + 1;
    if CharAt(p, next) != ']' { SetEndText(p, next, e); }
  }

  // ----- parts of a pattern -----

  /** The answer of the items from the answers of those after the first. */
  lemma ItemAnswer(ct: Classes, src: string, s: nat, items: seq<Item>, caps: seq<Capture>)
    requires items != []
    ensures
      var rest, a := items[1..], Answer(ct, src, s, items, caps);
      match items[0]
      case Single(chars, r) => (
        var m := Hits(ct, src, s, chars);
        match r
        case Once => a == if m then Answer(ct, src, s + 1, rest, caps) else None
        case AtMostOnce =>
          a == if m && Answer(ct, src, s + 1, rest, caps) != None then Answer(ct, src, s + 1, rest, caps)
               else Answer(ct, src, s, rest, caps)
        case Longest => a == First(Down(ct, src, s, Run(ct, src, s, chars), rest, caps))
        case LongestNotEmpty =>
          a == if m then First(Down(ct, src, s + 1, Run(ct, src, s + 1, chars), rest, caps)) else None
        case Shortest => a == First(Up(ct, src, s, Run(ct, src, s, chars), rest, caps)))
      case Balance(open, close) =>
        var e := BalancedEnd(src, s, open, close);
        a == if e.None? then None else Answer(ct, src, e.value, rest, caps)
      case Frontier(chars) => a == if AtFrontier(ct, src, s, chars) then Answer(ct, src, s, rest, caps) else None
      case End => a == if s == |src| then Answer(ct, src, s, rest, caps) else None
      case OpenCapture =>
        a == if |caps| >= 32 then Some(Bad(TooManyCaptures)) else Answer(ct, src, s, rest, caps + [Opened(s)])
      case PositionCapture =>
        a == if |caps| >= 32 then Some(Bad(TooManyCaptures)) else Answer(ct, src, s, rest, caps + [Position(s)])
      case CloseCapture =>
        var closed := CloseLast(caps, s);
        a == if closed.None? then Some(Bad(InvalidPatternCapture)) else Answer(ct, src, s, rest, closed.value)
      case BackReference(l) =>
        if !(0 <= l < |caps|) || caps[l].Opened? then a == Some(Bad(InvalidCaptureIndex))
        else a == if Repeats(src, s, caps[l]) then Answer(ct, src, Again(s, caps[l]), rest, caps) else None
      case Broken(error) => a == Some(Bad(error))
  {
    hide Down, Up, Run, InSet;
  }

  lemma NoItems(ct: Classes, src: string, s: nat, caps: seq<Capture>)
    ensures Answer(ct, src, s, [], caps) == Some(Hit(s, caps))
  {
  }

  /** The end of the pattern, and `$` there. */
  lemma EndText(ct: Classes, src: string, s: nat, p: string, i: nat, caps: seq<Capture>)
    requires CharAt(p, i) == '\0' || (CharAt(p, i) == '$' && CharAt(p, i + 1) == '\0')
    ensures Answer(ct, src, s, Parse(p, i), caps) ==
            if CharAt(p, i) == '\0' || s == |src| then Some(Hit(s, caps)) else None
  {
    NoItems(ct, src, s, caps);
    assert [End][1..] == [];
  }

  /** `()` captures the position, `(` begins a capture here, and `)` ends the last one that is open. */
  lemma ParenthesisText(ct: Classes, src: string, s: nat, p: string, i: nat, caps: seq<Capture>)
    requires CharAt(p, i) in ['(', ')']
    ensures
      var a := Answer(ct, src, s, Parse(p, i), caps);
      if CharAt(p, i) == ')' then
        if forall j :: 0 <= j < |caps| ==> !caps[j].Opened? then a == Some(Bad(InvalidPatternCapture))
        else
          exists l: nat ::
            && l < |caps| && caps[l].Opened? && (forall j :: l < j < |caps| ==> !caps[j].Opened?)
            && a == Answer(ct, src, s, Parse(p, i + 1), caps[l := Closed(caps[l].start, s)])
      else if |caps| >= 32 then a == Some(Bad(TooManyCaptures))
      else if CharAt(p, i + 1) == ')' then a == Answer(ct, src, s, Parse(p, i + 2), caps + [Position(s)])
      else a == Answer(ct, src, s, Parse(p, i + 1), caps + [Opened(s)])
  {
    hide Answer;
    var items := Parse(p, i);
    ItemAnswer(ct, src, s, items, caps);
    assert items[1..] == Parse(p, if CharAt(p, i) == '(' && CharAt(p, i + 1) == ')' then i + 2 else i + 1);
    if CharAt(p, i) == ')' {
      var l := LastOpen(Flags(caps));
      assert forall j :: 0 <= j < |caps| ==> Flags(caps)[j] == caps[j].Opened?;
    }
  }

  /** `%b` and two characters: what begins with the first and ends with the second that balances it. */
  lemma BalanceText(ct: Classes, src: string, s: nat, p: string, i: nat, caps: seq<Capture>)
    requires CharAt(p, i) == '%' && CharAt(p, i + 1) == 'b'
    ensures
      var a, x, y := Answer(ct, src, s, Parse(p, i), caps), CharAt(p, i + 2), CharAt(p, i + 3);
      if x == '\0' || y == '\0' then a == Some(Bad(UnbalancedPattern))
      else
        && (forall k: nat :: Balanced(src, s, k, x, y) ==> a == Answer(ct, src, k, Parse(p, i + 4), caps))
        && ((forall k: nat :: !Balanced(src, s, k, x, y)) ==> a == None)
  {
    hide Answer, Balanced, BalancedEnd;
    var items, x, y := Parse(p, i), CharAt(p, i + 2), CharAt(p, i + 3);
    ItemAnswer(ct, src, s, items, caps);
    if x != '\0' && y != '\0' {
      assert items[1..] == Parse(p, i + 4) && items[0] == Balance(x, y);
      forall k: nat
        ensures BalancedEnd(src, s, x, y) == Some(k) <==> Balanced(src, s, k, x, y)
      {
        BalancedIs(src, s, x, y, k);
      }
    }
  }

  /** `%f` and a set: a position where the set begins to hold. */
  lemma FrontierText(ct: Classes, src: string, s: nat, p: string, i: nat, caps: seq<Capture>)
    requires CharAt(p, i) == '%' && CharAt(p, i + 1) == 'f'
    ensures
      var a := Answer(ct, src, s, Parse(p, i), caps);
      if CharAt(p, i + 2) != '[' then a == Some(Bad(MissingSetAfterFrontier))
      else
        var e := ClassEnd(p, i + 2);
        if e == None then a == Some(Bad(MissingBracket))
        else
          var chars := ClassSet(p, i + 2, e.value);
          var before, here := if 0 < s <= |src| then src[s - 1] else '\0', CharAt(src, s);
          a == if !InSet(ct, chars, before) && InSet(ct, chars, here) then Answer(ct, src, s, Parse(p, e.value), caps)
               else None
  {
    hide Answer, InSet, ClassEnd, BracketSet;
    var items := Parse(p, i);
    ItemAnswer(ct, src, s, items, caps);
    if CharAt(p, i + 2) == '[' {
      var e := ClassEnd(p, i + 2);
      if e.Some? { assert items[1..] == Parse(p, e.value); }
    }
  }

  /** `%1` to `%9`: the characters of that capture again. */
  lemma ReferenceText(ct: Classes, src: string, s: nat, p: string, i: nat, caps: seq<Capture>)
    requires CharAt(p, i) == '%' && IsDigit(CharAt(p, i + 1)) && AllLie(caps, s) && s <= |src|
    ensures
      var a, l := Answer(ct, src, s, Parse(p, i), caps), CharAt(p, i + 1) as int - '1' as int;
      if !(0 <= l < |caps|) then a == Some(Bad(InvalidCaptureIndex))
      else
        match caps[l]
        case Opened(_) => a == Some(Bad(InvalidCaptureIndex))
        case Position(_) => a == None
        case Closed(start, end) =>
          var t := s + (end - start);
          a == if t <= |src| && src[s..t] == src[start..end] then Answer(ct, src, t, Parse(p, i + 2), caps) else None
  {
    hide Answer;
    var items, l := Parse(p, i), CharAt(p, i + 1) as int - '1' as int;
    ItemAnswer(ct, src, s, items, caps);
    assert items[1..] == Parse(p, i + 2);
    if 0 <= l < |caps| { assert Lies(caps[l], s); }
  }

  /** The character at `i` begins a class, the case that the source calls `default`. */
  predicate BeginsClass(p: string, i: nat) {
    var c, d := CharAt(p, i), CharAt(p, i + 1);
    && i < |p| && c !in ['\0', '(', ')'] && !(c == '$' && d == '\0')
    && !(c == L_ESC && (d == 'b' || d == 'f' || IsDigit(d)))
  }

  predicate IsSingle(p: string, i: nat, e: nat) {
    BeginsClass(p, i) && ClassEnd(p, i) == Some(e)
  }

  lemma SingleItem(p: string, i: nat, e: nat)
    requires IsSingle(p, i, e)
    ensures Parse(p, i) == [Single(ClassSet(p, i, e), RepeatAt(p, e))] + Parse(p, AfterRepeat(p, e))
  {
  }

  /** `*` is the longest repetition, `+` that of one or more, `-` the shortest, `?` one or none. */
  lemma RepetitionText(ct: Classes, src: string, s: nat, p: string, i: nat, e: nat, caps: seq<Capture>)
    requires IsSingle(p, i, e)
    ensures
      var a, chars, rest := Answer(ct, src, s, Parse(p, i), caps), ClassSet(p, i, e), Parse(p, e + 1);
      match CharAt(p, e)
      case '*' => Chosen(ct, src, s, chars, 0, None, true, rest, caps, a)
      case '+' => Chosen(ct, src, s, chars, 1, None, true, rest, caps, a)
      case '-' => Chosen(ct, src, s, chars, 0, None, false, rest, caps, a)
      case '?' => Chosen(ct, src, s, chars, 0, Some(1), true, rest, caps, a)
      case _ => Chosen(ct, src, s, chars, 1, Some(1), true, Parse(p, e), caps, a)
  {
    hide Answer, Chosen, ClassSet, Parse, IsSingle;
    SingleItem(p, i, e);
    SingleChosen(ct, src, s, ClassSet(p, i, e), RepeatAt(p, e), Parse(p, AfterRepeat(p, e)), caps);
  }

  /** A class without an end is an error. */
  lemma OpenClassText(ct: Classes, src: string, s: nat, p: string, i: nat, caps: seq<Capture>)
    requires BeginsClass(p, i) && ClassEnd(p, i) == None
    ensures Answer(ct, src, s, Parse(p, i), caps) ==
            Some(Bad(if p[i] == '%' then EndsWithEscape else MissingBracket))
  {
    ItemAnswer(ct, src, s, Parse(p, i), caps);
  }
}
