/** What a match captures, and the language of the items apart from captures. */
module PatternCaptures {

  import opened PatternItems

  // ----- captures already there -----

  /** The captures there were are still there: only one that was open may have been closed. */
  predicate Kept(caps: seq<Capture>, later: seq<Capture>) {
    && |caps| <= |later|
    && forall i :: 0 <= i < |caps| ==>
         later[i] == caps[i] || (caps[i].Opened? && later[i].Closed? && later[i].start == caps[i].start)
  }

  predicate IsCapture(item: Item) {
    item.OpenCapture? || item.PositionCapture?
  }

  function Count(items: seq<Item>): nat {
    if items == [] then 0 else (if IsCapture(items[0]) then 1 else 0) + Count(items[1..])
  }

  lemma LieLater(caps: seq<Capture>, s: nat, t: nat)
    requires AllLie(caps, s) && s <= t
    ensures AllLie(caps, t)
  {
    forall i | 0 <= i < |caps|
      ensures Lies(caps[i], t)
    {
      assert Lies(caps[i], s);
    }
  }

  /** A match goes forward, its captures lie before its end, and it makes one for each `(`. */
  lemma {:induction false} DerivesKeeps(ct: Classes, src: string, s: nat, items: seq<Item>, caps: seq<Capture>, e: nat,
                                        final: seq<Capture>)
    requires Derives(ct, src, s, items, caps, Hit(e, final)) && s <= |src| && AllLie(caps, s)
    ensures s <= e <= |src| && AllLie(final, e) && Kept(caps, final) && |final| == |caps| + Count(items)
    decreases |items|
  {
    hide AllIn, Balanced, AtFrontier, Allows, Repeats;
    if items != [] {
      var rest := items[1..];
      match items[0]
      case Single(chars, r) =>
        var n: nat :| Allows(r, n) && AllIn(ct, src, s, n, chars) &&
          Derives(ct, src, s + n, rest, caps, Hit(e, final));
        InSubject(ct, src, s, n, chars);
        LieLater(caps, s, s + n);
        DerivesKeeps(ct, src, s + n, rest, caps, e, final);
      case Balance(open, close) =>
        var k: nat :| Balanced(src, s, k, open, close) && Derives(ct, src, k, rest, caps, Hit(e, final));
        assert s <= k <= |src| by { BalancedLies(src, s, k, open, close); }
        LieLater(caps, s, k);
        DerivesKeeps(ct, src, k, rest, caps, e, final);
      case OpenCapture =>
        DerivesKeeps(ct, src, s, rest, caps + [Opened(s)], e, final);
        KeptPrefix(caps, Opened(s), final);
      case PositionCapture =>
        DerivesKeeps(ct, src, s, rest, caps + [Position(s)], e, final);
        KeptPrefix(caps, Position(s), final);
      case CloseCapture =>
        DerivesKeeps(ct, src, s, rest, CloseLast(caps, s).value, e, final);
      case BackReference(l) =>
        var t := Again(s, caps[l]);
        assert s <= t <= |src| by { RepeatLies(src, s, caps[l]); }
        LieLater(caps, s, t);
        DerivesKeeps(ct, src, t, rest, caps, e, final);
      case Frontier(_) => DerivesKeeps(ct, src, s, rest, caps, e, final);
      case End => DerivesKeeps(ct, src, s, rest, caps, e, final);
      case Broken(_) =>
    }
  }

  lemma InSubject(ct: Classes, src: string, s: nat, n: nat, chars: CharSet)
    requires AllIn(ct, src, s, n, chars) && s <= |src|
    ensures s + n <= |src|
  {
    if n > 0 { assert Hits(ct, src, s + n - 1, chars); }
  }

  lemma BalancedLies(src: string, s: nat, k: nat, open: char, close: char)
    requires Balanced(src, s, k, open, close)
    ensures s <= k <= |src|
  {
  }

  lemma RepeatLies(src: string, s: nat, c: Capture)
    requires Repeats(src, s, c)
    ensures s <= Again(s, c) <= |src|
  {
  }

  lemma KeptPrefix(caps: seq<Capture>, c: Capture, later: seq<Capture>)
    requires Kept(caps + [c], later)
    ensures Kept(caps, later)
  {
    forall i | 0 <= i < |caps|
      ensures later[i] == caps[i] || (caps[i].Opened? && later[i].Closed? && later[i].start == caps[i].start)
    {
      assert (caps + [c])[i] == caps[i];
    }
  }

  // ----- one part after the other -----

  /** `a` leads to `m` with the captures `mid`, from where `b` leads to `x`. */
  ghost predicate Through(ct: Classes, src: string, s: nat, a: seq<Item>, b: seq<Item>, caps: seq<Capture>, x: Try,
                          m: nat, mid: seq<Capture>) {
    Derives(ct, src, s, a, caps, Hit(m, mid)) && Derives(ct, src, m, b, mid, x)
  }

  /** What two parts derive together, the second derives from where the first has come to. */
  lemma {:induction false} DerivesSplit(ct: Classes, src: string, s: nat, a: seq<Item>, b: seq<Item>,
                                        caps: seq<Capture>, e: nat, final: seq<Capture>)
    returns (m: nat, mid: seq<Capture>)
    requires Derives(ct, src, s, a + b, caps, Hit(e, final))
    ensures Through(ct, src, s, a, b, caps, Hit(e, final), m, mid)
    decreases |a|
  {
    hide AllIn, Balanced, AtFrontier, Allows, Repeats, CloseLast;
    if a == [] {
      assert a + b == b;
      m, mid := s, caps;
    } else {
      var x, rest := Hit(e, final), a[1..];
      assert (a + b)[1..] == rest + b && (a + b)[0] == a[0];
      match a[0]
      case Single(chars, r) =>
        var n: nat :| Allows(r, n) && AllIn(ct, src, s, n, chars) && Derives(ct, src, s + n, rest + b, caps, x);
        m, mid := DerivesSplit(ct, src, s + n, rest, b, caps, e, final);
      case Balance(open, close) =>
        var k: nat :| Balanced(src, s, k, open, close) && Derives(ct, src, k, rest + b, caps, x);
        m, mid := DerivesSplit(ct, src, k, rest, b, caps, e, final);
      case OpenCapture => m, mid := DerivesSplit(ct, src, s, rest, b, caps + [Opened(s)], e, final);
      case PositionCapture => m, mid := DerivesSplit(ct, src, s, rest, b, caps + [Position(s)], e, final);
      case CloseCapture => m, mid := DerivesSplit(ct, src, s, rest, b, CloseLast(caps, s).value, e, final);
      case BackReference(l) =>
        m, mid := DerivesSplit(ct, src, Again(s, caps[l]), rest, b, caps, e, final);
      case Frontier(_) => m, mid := DerivesSplit(ct, src, s, rest, b, caps, e, final);
      case End => m, mid := DerivesSplit(ct, src, s, rest, b, caps, e, final);
      case Broken(_) => assert false;
    }
  }

  // ----- nesting -----

  /** Which of the captures that the items make are open after them, none of which is closed but
      by the items themselves. */
  function OpenAfter(items: seq<Item>, open: seq<bool>): Option<seq<bool>> {
    if items == [] then Some(open)
    else
      match items[0]
      case OpenCapture => OpenAfter(items[1..], open + [true])
      case PositionCapture => OpenAfter(items[1..], open + [false])
      case CloseCapture =>
        var l := LastOpen(open);
        if l.None? then None else OpenAfter(items[1..], open[l.value := false])
      case _ => OpenAfter(items[1..], open)
  }

  /** The items close exactly the captures that they open. */
  predicate ClosesOwn(items: seq<Item>) {
    var after := OpenAfter(items, []);
    after.Some? && true !in after.value
  }

  lemma {:induction false} LastOpenBehind(others: seq<bool>, own: seq<bool>)
    requires LastOpen(own).Some?
    ensures LastOpen(others + own) == Some(|others| + LastOpen(own).value)
  {
    var i := |others| + LastOpen(own).value;
    assert (others + own)[i] && forall j :: i < j < |others + own| ==> !(others + own)[j] by {
      forall j | i < j < |others + own|
        ensures !(others + own)[j]
      {
        assert (others + own)[j] == own[j - |others|];
      }
    }
  }

  lemma FlagsSplit(a: seq<Capture>, b: seq<Capture>)
    ensures Flags(a + b) == Flags(a) + Flags(b)
  {
  }

  lemma CloseOwn(caps: seq<Capture>, own: seq<Capture>, s: nat)
    requires LastOpen(Flags(own)).Some?
    ensures CloseLast(own, s).Some? && CloseLast(caps + own, s) == Some(caps + CloseLast(own, s).value)
    ensures Flags(CloseLast(own, s).value) == Flags(own)[LastOpen(Flags(own)).value := false]
  {
    hide LastOpen;
    FlagsSplit(caps, own);
    LastOpenBehind(Flags(caps), Flags(own));
    var l := LastOpen(Flags(own)).value;
    assert (caps + own)[|caps| + l] == own[l];
    assert (caps + own)[|caps| + l := Closed(own[l].start, s)] == caps + own[l := Closed(own[l].start, s)];
    assert Flags(own[l := Closed(own[l].start, s)]) == Flags(own)[l := false];
  }

  /** Items that close no captures but their own leave the others as they are. */
  lemma {:induction false} DerivesOwn(ct: Classes, src: string, s: nat, items: seq<Item>, caps: seq<Capture>,
                                      own: seq<Capture>, e: nat, final: seq<Capture>)
    requires Derives(ct, src, s, items, caps + own, Hit(e, final)) && OpenAfter(items, Flags(own)).Some?
    ensures |caps| <= |final| && final[..|caps|] == caps
    ensures Flags(final[|caps|..]) == OpenAfter(items, Flags(own)).value
    decreases |items|
  {
    hide AllIn, Balanced, AtFrontier, Allows, Repeats, CloseLast, LastOpen, Flags;
    if items == [] {
      assert (caps + own)[|caps|..] == own;
    } else {
      var rest := items[1..];
      match items[0]
      case Single(chars, r) =>
        var n: nat :| Allows(r, n) && AllIn(ct, src, s, n, chars) &&
          Derives(ct, src, s + n, rest, caps + own, Hit(e, final));
        DerivesOwn(ct, src, s + n, rest, caps, own, e, final);
      case Balance(open, close) =>
        var k: nat :| Balanced(src, s, k, open, close) && Derives(ct, src, k, rest, caps + own, Hit(e, final));
        DerivesOwn(ct, src, k, rest, caps, own, e, final);
      case OpenCapture =>
        assert caps + own + [Opened(s)] == caps + (own + [Opened(s)]);
        FlagsOne(own, Opened(s));
        DerivesOwn(ct, src, s, rest, caps, own + [Opened(s)], e, final);
      case PositionCapture =>
        assert caps + own + [Position(s)] == caps + (own + [Position(s)]);
        FlagsOne(own, Position(s));
        DerivesOwn(ct, src, s, rest, caps, own + [Position(s)], e, final);
      case CloseCapture =>
        CloseOwn(caps, own, s);
        DerivesOwn(ct, src, s, rest, caps, CloseLast(own, s).value, e, final);
      case BackReference(l) =>
        var c := (caps + own)[l];
        DerivesOwn(ct, src, Again(s, c), rest, caps, own, e, final);
      case Frontier(_) => DerivesOwn(ct, src, s, rest, caps, own, e, final);
      case End => DerivesOwn(ct, src, s, rest, caps, own, e, final);
      case Broken(_) =>
    }
  }

  lemma FlagsOne(caps: seq<Capture>, c: Capture)
    ensures Flags(caps + [c]) == Flags(caps) + [c.Opened?]
  {
  }

  /** What a pair of parentheses around `b` captures: `a` matches from the start of the match to where
      the capture begins, `b` all that is captured, and `c` from there to the end of the match. */
  lemma CaptureMeans(ct: Classes, src: string, s: nat, a: seq<Item>, b: seq<Item>, c: seq<Item>, caps: seq<Capture>,
                     e: nat, final: seq<Capture>)
    returns (before: seq<Capture>, inside: seq<Capture>)
    requires Derives(ct, src, s, a + ([OpenCapture] + (b + ([CloseCapture] + c))), caps, Hit(e, final))
    requires s <= |src| && AllLie(caps, s) && ClosesOwn(b)
    ensures
      var n := |caps| + Count(a);
      && n < |final| && final[n].Closed? && |before| == n
      && Derives(ct, src, s, a, caps, Hit(final[n].start, before))
      && Derives(ct, src, final[n].start, b, before + [Opened(final[n].start)],
                 Hit(final[n].end, before + [Opened(final[n].start)] + inside))
      && Derives(ct, src, final[n].end, c, before + [final[n]] + inside, Hit(e, final))
  {
    hide Derives, ClosesOwn;
    var m0, mid0 := DerivesSplit(ct, src, s, a, [OpenCapture] + (b + ([CloseCapture] + c)), caps, e, final);
    DerivesKeeps(ct, src, s, a, caps, m0, mid0);
    StepOpen(ct, src, m0, b + ([CloseCapture] + c), mid0, e, final);
    var m1, mid1 := DerivesSplit(ct, src, m0, b, [CloseCapture] + c, mid0 + [Opened(m0)], e, final);
    DerivesKeeps(ct, src, m0, b, mid0 + [Opened(m0)], m1, mid1);
    before := mid0;
    inside := ClosedCapture(ct, src, m0, b, mid0, m1, mid1);
    StepClose(ct, src, m1, c, mid0, m0, inside, e, final);
    ClosedLies(mid0, m0, m1, inside);
    DerivesKeeps(ct, src, m1, c, mid0 + [Closed(m0, m1)] + inside, e, final);
  }

  lemma ClosedLies(caps: seq<Capture>, start: nat, s: nat, inside: seq<Capture>)
    requires AllLie(caps + [Opened(start)] + inside, s)
    ensures AllLie(caps + [Closed(start, s)] + inside, s)
  {
    var a, b := caps + [Opened(start)] + inside, caps + [Closed(start, s)] + inside;
    forall i | 0 <= i < |b|
      ensures Lies(b[i], s)
    {
      assert Lies(a[i], s) && (i != |caps| ==> a[i] == b[i]);
    }
  }

  lemma StepOpen(ct: Classes, src: string, s: nat, rest: seq<Item>, caps: seq<Capture>, e: nat, final: seq<Capture>)
    requires Derives(ct, src, s, [OpenCapture] + rest, caps, Hit(e, final))
    ensures Derives(ct, src, s, rest, caps + [Opened(s)], Hit(e, final))
  {
    assert ([OpenCapture] + rest)[1..] == rest;
  }

  lemma ClosedCapture(ct: Classes, src: string, s: nat, b: seq<Item>, caps: seq<Capture>, m: nat, mid: seq<Capture>)
    returns (inside: seq<Capture>)
    requires Derives(ct, src, s, b, caps + [Opened(s)], Hit(m, mid)) && ClosesOwn(b)
    ensures mid == caps + [Opened(s)] + inside && true !in Flags(inside)
  {
    hide Derives;
    var outer := caps + [Opened(s)];
    assert outer + [] == outer && Flags([]) == [];
    DerivesOwn(ct, src, s, b, outer, [], m, mid);
    inside := mid[|outer|..];
  }

  lemma StepClose(ct: Classes, src: string, s: nat, rest: seq<Item>, caps: seq<Capture>, start: nat,
                  inside: seq<Capture>, e: nat, final: seq<Capture>)
    requires Derives(ct, src, s, [CloseCapture] + rest, caps + [Opened(start)] + inside, Hit(e, final))
    requires true !in Flags(inside)
    ensures Derives(ct, src, s, rest, caps + [Closed(start, s)] + inside, Hit(e, final))
  {
    assert ([CloseCapture] + rest)[1..] == rest;
    LastIs(caps, start, inside, s);
  }

  lemma LastIs(caps: seq<Capture>, start: nat, inside: seq<Capture>, s: nat)
    requires true !in Flags(inside)
    ensures CloseLast(caps + [Opened(start)] + inside, s) == Some(caps + [Closed(start, s)] + inside)
  {
    var all := caps + [Opened(start)] + inside;
    assert Flags(all)[|caps|];
    forall j | |caps| < j < |all|
      ensures !Flags(all)[j]
    {
      assert all[j] == inside[j - |caps| - 1];
      assert Flags(inside)[j - |caps| - 1] in Flags(inside);
    }
    assert LastOpen(Flags(all)) == Some(|caps|) && all[|caps|] == Opened(start);
    assert all[|caps| := Closed(start, s)] == caps + [Closed(start, s)] + inside;
  }

  // ----- the language -----

  predicate NoReferences(items: seq<Item>) {
    forall i :: 0 <= i < |items| ==> !items[i].BackReference?
  }

  /** `src[s..e]`, at its place, belongs to the language of items without back references. */
  ghost predicate InLanguage(ct: Classes, src: string, s: nat, e: nat, items: seq<Item>)
    decreases |items|
  {
    if items == [] then s == e
    else
      var rest := items[1..];
      match items[0]
      case Single(chars, r) =>
        exists n: nat :: Allows(r, n) && AllIn(ct, src, s, n, chars) && InLanguage(ct, src, s + n, e, rest)
      case Balance(open, close) => exists k: nat :: Balanced(src, s, k, open, close) && InLanguage(ct, src, k, e, rest)
      case Frontier(chars) => AtFrontier(ct, src, s, chars) && InLanguage(ct, src, s, e, rest)
      case End => s == |src| && InLanguage(ct, src, s, e, rest)
      case BackReference(_) => false
      case Broken(_) => false
      case _ => InLanguage(ct, src, s, e, rest)
  }

  /** What is matched is in the language. */
  lemma {:induction false} MatchedInLanguage(ct: Classes, src: string, s: nat, items: seq<Item>, caps: seq<Capture>,
                                             e: nat, final: seq<Capture>)
    requires Derives(ct, src, s, items, caps, Hit(e, final)) && NoReferences(items)
    ensures InLanguage(ct, src, s, e, items)
    decreases |items|
  {
    hide AllIn, Balanced, AtFrontier, Allows, Repeats, CloseLast;
    if items != [] {
      var rest := items[1..];
      match items[0]
      case Single(chars, r) =>
        var n: nat :| Allows(r, n) && AllIn(ct, src, s, n, chars) &&
          Derives(ct, src, s + n, rest, caps, Hit(e, final));
        MatchedInLanguage(ct, src, s + n, rest, caps, e, final);
      case Balance(open, close) =>
        var k: nat :| Balanced(src, s, k, open, close) && Derives(ct, src, k, rest, caps, Hit(e, final));
        MatchedInLanguage(ct, src, k, rest, caps, e, final);
      case OpenCapture => MatchedInLanguage(ct, src, s, rest, caps + [Opened(s)], e, final);
      case PositionCapture => MatchedInLanguage(ct, src, s, rest, caps + [Position(s)], e, final);
      case CloseCapture => MatchedInLanguage(ct, src, s, rest, CloseLast(caps, s).value, e, final);
      case Frontier(_) => MatchedInLanguage(ct, src, s, rest, caps, e, final);
      case End => MatchedInLanguage(ct, src, s, rest, caps, e, final);
      case _ =>
    }
  }

  /** What is in the language is matched, if the captures are nested. */
  lemma {:induction false} LanguageMatched(ct: Classes, src: string, s: nat, items: seq<Item>, caps: seq<Capture>,
                                           e: nat)
    returns (final: seq<Capture>)
    requires InLanguage(ct, src, s, e, items) && Nested(items, Flags(caps))
    ensures Derives(ct, src, s, items, caps, Hit(e, final))
    decreases |items|
  {
    hide AllIn, Balanced, AtFrontier, Allows, LastOpen, Flags;
    if items == [] {
      final := caps;
    } else {
      var rest := items[1..];
      match items[0]
      case Single(chars, r) =>
        var n: nat :| Allows(r, n) && AllIn(ct, src, s, n, chars) && InLanguage(ct, src, s + n, e, rest);
        final := LanguageMatched(ct, src, s + n, rest, caps, e);
      case Balance(open, close) =>
        var k: nat :| Balanced(src, s, k, open, close) && InLanguage(ct, src, k, e, rest);
        final := LanguageMatched(ct, src, k, rest, caps, e);
      case OpenCapture =>
        FlagsOne(caps, Opened(s));
        final := LanguageMatched(ct, src, s, rest, caps + [Opened(s)], e);
      case PositionCapture =>
        FlagsOne(caps, Position(s));
        final := LanguageMatched(ct, src, s, rest, caps + [Position(s)], e);
      case CloseCapture =>
        CloseOwn([], caps, s);
        assert [] + caps == caps;
        final := LanguageMatched(ct, src, s, rest, CloseLast(caps, s).value, e);
      case Frontier(_) => final := LanguageMatched(ct, src, s, rest, caps, e);
      case End => final := LanguageMatched(ct, src, s, rest, caps, e);
      case _ => assert false;
    }
  }

  /** If the captures are nested, nothing goes wrong in any match. */
  lemma {:induction false} NestedSafe(ct: Classes, src: string, s: nat, items: seq<Item>, caps: seq<Capture>, x: Try)
    requires Derives(ct, src, s, items, caps, x) && Nested(items, Flags(caps))
    ensures x.Hit?
    decreases |items|
  {
    hide AllIn, Balanced, AtFrontier, Allows, LastOpen, Flags, Repeats;
    if items != [] {
      var rest := items[1..];
      match items[0]
      case Single(chars, r) =>
        var n: nat :| Allows(r, n) && AllIn(ct, src, s, n, chars) && Derives(ct, src, s + n, rest, caps, x);
        NestedSafe(ct, src, s + n, rest, caps, x);
      case Balance(open, close) =>
        var k: nat :| Balanced(src, s, k, open, close) && Derives(ct, src, k, rest, caps, x);
        NestedSafe(ct, src, k, rest, caps, x);
      case OpenCapture =>
        FlagsOne(caps, Opened(s));
        NestedSafe(ct, src, s, rest, caps + [Opened(s)], x);
      case PositionCapture =>
        FlagsOne(caps, Position(s));
        NestedSafe(ct, src, s, rest, caps + [Position(s)], x);
      case CloseCapture =>
        CloseOwn([], caps, s);
        assert [] + caps == caps;
        NestedSafe(ct, src, s, rest, CloseLast(caps, s).value, x);
      case BackReference(l) =>
        assert Flags(caps)[l] == caps[l].Opened? by { FlagAt(caps, l); }
        NestedSafe(ct, src, Again(s, caps[l]), rest, caps, x);
      case Frontier(_) => NestedSafe(ct, src, s, rest, caps, x);
      case End => NestedSafe(ct, src, s, rest, caps, x);
      case Broken(_) =>
    }
  }

  lemma FlagAt(caps: seq<Capture>, l: nat)
    requires l < |caps|
    ensures Flags(caps)[l] == caps[l].Opened?
  {
  }

  /** What the parentheses around `b` have captured in the end, by the languages of the parts. */
  lemma CaptureInLanguage(ct: Classes, src: string, s: nat, a: seq<Item>, b: seq<Item>, c: seq<Item>, e: nat,
                          final: seq<Capture>)
    requires Derives(ct, src, s, a + ([OpenCapture] + (b + ([CloseCapture] + c))), [], Hit(e, final)) && s <= |src|
    requires ClosesOwn(b) && NoReferences(a) && NoReferences(b) && NoReferences(c)
    ensures
      var n := Count(a);
      && n < |final| && final[n].Closed? && InLanguage(ct, src, s, final[n].start, a)
      && InLanguage(ct, src, final[n].start, final[n].end, b) && InLanguage(ct, src, final[n].end, e, c)
  {
    hide Derives, ClosesOwn, InLanguage;
    var before, inside := CaptureMeans(ct, src, s, a, b, c, [], e, final);
    var here := final[Count(a)];
    MatchedInLanguage(ct, src, s, a, [], here.start, before);
    MatchedInLanguage(ct, src, here.start, b, before + [Opened(here.start)], here.end,
                      before + [Opened(here.start)] + inside);
    MatchedInLanguage(ct, src, here.end, c, before + [here] + inside, e, final);
  }

  /** A position capture is where `a` has ended and `c` begins. */
  lemma PositionInLanguage(ct: Classes, src: string, s: nat, a: seq<Item>, c: seq<Item>, e: nat, final: seq<Capture>)
    requires Derives(ct, src, s, a + ([PositionCapture] + c), [], Hit(e, final)) && s <= |src|
    requires NoReferences(a) && NoReferences(c)
    ensures
      var n := Count(a);
      && n < |final| && final[n].Position? && InLanguage(ct, src, s, final[n].at, a)
      && InLanguage(ct, src, final[n].at, e, c)
  {
    hide InLanguage, Derives;
    var m, mid := DerivesSplit(ct, src, s, a, [PositionCapture] + c, [], e, final);
    DerivesKeeps(ct, src, s, a, [], m, mid);
    StepPosition(ct, src, m, c, mid, e, final);
    DerivesKeeps(ct, src, m, c, mid + [Position(m)], e, final);
    assert (mid + [Position(m)])[|mid|] == Position(m);
    MatchedInLanguage(ct, src, s, a, [], m, mid);
    MatchedInLanguage(ct, src, m, c, mid + [Position(m)], e, final);
  }

  lemma StepPosition(ct: Classes, src: string, s: nat, rest: seq<Item>, caps: seq<Capture>, e: nat,
                     final: seq<Capture>)
    requires Derives(ct, src, s, [PositionCapture] + rest, caps, Hit(e, final))
    ensures Derives(ct, src, s, rest, caps + [Position(s)], Hit(e, final))
  {
    assert ([PositionCapture] + rest)[1..] == rest;
  }
}
