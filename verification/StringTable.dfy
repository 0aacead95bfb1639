/** The table of all strings (lua-5.1/lstring.c:22-93) and its sweep (lua-5.1/lgc.c:405-426,
    570-578). The chain of a bucket is a sequence, its head first. */
module StringTable {

  /** The `marked` field of a string: a string is black if it has neither white. */
  datatype Marked = Marked(white0: bool, white1: bool, fixed: bool)

  /** `TString`; `id` stands for its address. */
  datatype TString = TString(id: nat, contents: string, hash: nat, marked: Marked)

  type HashOf = string -> nat

  const MAX_INT: nat := 0x7FFF_FFFD
  const MINSTRTABSIZE: nat := 32

  function White(current: bool): Marked {
    Marked(!current, current, false)
  }

  /** `isdead`: it has the white of the cycle before. */
  predicate IsDead(current: bool, m: Marked) {
    if current then m.white0 else m.white1
  }

  /** What the sweep erases: `isdead`, but for fixed strings. */
  predicate Erased(current: bool, s: TString) {
    IsDead(current, s.marked) && !s.marked.fixed
  }

  /** `lmod`; sizes are powers of two. */
  function Lmod(hash: nat, size: nat): (b: nat)
    requires size > 0
    ensures b < size
  {
    hash % size
  }

  // ----- tables -----

  /** All strings of the buckets. */
  function All(t: seq<seq<TString>>): multiset<TString> {
    if t == [] then multiset{} else multiset(t[0]) + All(t[1..])
  }

  /** No string is there twice, and equal contents or equal addresses are those of one string. */
  ghost predicate Canonical(all: multiset<TString>) {
    && (forall x :: all[x] <= 1)
    && (forall x, y :: x in all && y in all && (x.contents == y.contents || x.id == y.id) ==> x == y)
  }

  /** Every string is in the bucket of its hash. */
  ghost predicate Placed(h: HashOf, t: seq<seq<TString>>) {
    forall b, x :: 0 <= b < |t| && x in t[b] ==> x.hash == h(x.contents) && Lmod(x.hash, |t|) == b
  }

  lemma Exchange<T>(a: multiset<T>, m: multiset<T>, b: multiset<T>)
    ensures a + m + b == b + m + a
  {
  }

  lemma Append<T>(m: multiset<T>, a: multiset<T>, b: multiset<T>, c: multiset<T>, d: multiset<T>)
    requires a + b == c + d
    ensures m + a + b == m + c + d
  {
    assert m + a + b == m + (a + b) && m + c + d == m + (c + d);
  }

  lemma {:induction false} AllWith(t: seq<seq<TString>>, b: nat, s: seq<TString>)
    requires b < |t|
    ensures All(t[b := s]) + multiset(t[b]) == All(t) + multiset(s)
    decreases b
  {
    var t' := t[b := s];
    if b == 0 {
      assert t'[1..] == t[1..] && t'[0] == s;
      Exchange(multiset(s), All(t[1..]), multiset(t[0]));
      assert All(t') == multiset(s) + All(t[1..]) && All(t) == multiset(t[0]) + All(t[1..]);
    } else {
      AllWith(t[1..], b - 1, s);
      assert t'[1..] == t[1..][b - 1 := s] && t'[0] == t[0] && t[1..][b - 1] == t[b];
      Append(multiset(t[0]), All(t'[1..]), multiset(t[b]), All(t[1..]), multiset(s));
      assert All(t') == multiset(t[0]) + All(t'[1..]) && All(t) == multiset(t[0]) + All(t[1..]);
    }
  }

  lemma {:induction false} AllHas(t: seq<seq<TString>>, x: TString)
    ensures x in All(t) <==> exists b :: 0 <= b < |t| && x in t[b]
  {
    if t != [] {
      AllHas(t[1..], x);
      if b :| 0 <= b < |t[1..]| && x in t[1..][b] { assert t[b + 1] == t[1..][b]; }
      if b :| 0 <= b < |t| && x in t[b] { assert b > 0 ==> t[1..][b - 1] == t[b]; }
    }
  }

  lemma {:induction false} AllEmpty(t: seq<seq<TString>>)
    requires forall b :: 0 <= b < |t| ==> t[b] == []
    ensures All(t) == multiset{}
  {
    if t != [] { AllEmpty(t[1..]); }
  }

  /** A string is nowhere but in its bucket. */
  lemma InBucket(h: HashOf, t: seq<seq<TString>>, x: TString)
    requires Placed(h, t) && x in All(t)
    ensures |t| > 0 && x.hash == h(x.contents) && x in t[Lmod(x.hash, |t|)]
  {
    AllHas(t, x);
  }

  /** The strings of `chain` that are not in `p` any more have joined the buckets. */
  ghost predicate Moving(t: seq<seq<TString>>, p: seq<TString>, before: seq<seq<TString>>, chain: seq<TString>) {
    All(t) + multiset(p) == All(before) + multiset(chain)
  }

  lemma NotMoved(before: seq<seq<TString>>, chain: seq<TString>)
    ensures Moving(before, chain, before, chain)
  {
  }

  lemma AllMoved(t: seq<seq<TString>>, before: seq<seq<TString>>, chain: seq<TString>)
    requires Moving(t, [], before, chain)
    ensures All(t) == All(before) + multiset(chain)
  {
  }

  lemma MovingOn(t: seq<seq<TString>>, t': seq<seq<TString>>, p: seq<TString>, before: seq<seq<TString>>,
                 chain: seq<TString>)
    requires Moving(t, p, before, chain) && p != [] && All(t') == All(t) + multiset{p[0]}
    ensures Moving(t', p[1..], before, chain)
  {
    assert p == [p[0]] + p[1..];
  }

  lemma Cancel<T>(a: multiset<T>, b: multiset<T>, m: multiset<T>)
    requires a + m == b + m
    ensures a == b
  {
    forall x
      ensures a[x] == b[x]
    {
      assert (a + m)[x] == (b + m)[x];
    }
  }

  /** One string more at the head of its bucket. */
  lemma Chained(h: HashOf, t: seq<seq<TString>>, x: TString)
    requires |t| > 0 && Placed(h, t) && x.hash == h(x.contents)
    ensures
      var b := Lmod(x.hash, |t|);
      var t' := t[b := [x] + t[b]];
      Placed(h, t') && All(t') == All(t) + multiset{x}
  {
    hide All, Lmod;
    var b := Lmod(x.hash, |t|);
    var t' := t[b := [x] + t[b]];
    AllWith(t, b, [x] + t[b]);
    assert multiset([x] + t[b]) == multiset{x} + multiset(t[b]);
    Cancel(All(t'), All(t) + multiset{x}, multiset(t[b]));
  }

  /** What the sweep makes of a string that it keeps (`makewhite`). */
  function Whitened(current: bool, s: TString): TString {
    s.(marked := White(current).(fixed := s.marked.fixed))
  }

  function Swept(current: bool, chain: seq<TString>): seq<TString> {
    if chain == [] then []
    else if Erased(current, chain[0]) then Swept(current, chain[1..])
    else [Whitened(current, chain[0])] + Swept(current, chain[1..])
  }

  /** `changewhite`. */
  function Changed(s: TString): TString {
    s.(marked := Marked(!s.marked.white0, !s.marked.white1, s.marked.fixed))
  }

  /** A string of this address and these contents is there that the sweep will not erase. */
  ghost predicate LivesIn(all: multiset<TString>, current: bool, id: nat, contents: string) {
    exists x :: x in all && x.id == id && x.contents == contents && !Erased(current, x)
  }

  /** The marks of a string change, and nothing else. */
  lemma Remarked(all: multiset<TString>, x: TString, y: TString, next: nat)
    requires Canonical(all) && x in all && y == x.(marked := y.marked) && forall z :: z in all ==> z.id < next
    ensures
      var all' := all - multiset{x} + multiset{y};
      Canonical(all') && |all'| == |all| && forall z :: z in all' ==> z.id < next
  {
    var all' := all - multiset{x} + multiset{y};
    assert all[x] == 1;
    forall z
      ensures all'[z] <= 1
    {
      if z == y && y != x { assert y !in all; }
    }
  }

  lemma {:induction false} SweptIs(current: bool, chain: seq<TString>)
    ensures
      var s := Swept(current, chain);
      |s| <= |chain| &&
      forall y :: y in s <==> exists x :: x in chain && !Erased(current, x) && y == Whitened(current, x)
  {
    if chain != [] { SweptIs(current, chain[1..]); }
  }

  /** What the operations keep: strings stay unique, and those that are not dead stay. */
  ghost predicate Keeps(all: multiset<TString>, all': multiset<TString>, current: bool) {
    forall id, contents :: LivesIn(all, current, id, contents) ==> LivesIn(all', current, id, contents)
  }

  lemma RemarkedKeeps(all: multiset<TString>, x: TString, y: TString, current: bool)
    requires x in all && y == x.(marked := y.marked) && !Erased(current, y)
    ensures Keeps(all, all - multiset{x} + multiset{y}, current)
  {
    var all' := all - multiset{x} + multiset{y};
    forall id, contents | LivesIn(all, current, id, contents)
      ensures LivesIn(all', current, id, contents)
    {
      var z :| z in all && z.id == id && z.contents == contents && !Erased(current, z);
      assert (if z == x then y else z) in all';
    }
  }

  lemma ErasedKeeps(all: multiset<TString>, x: TString, current: bool)
    requires x in all && Erased(current, x)
    ensures Keeps(all, all - multiset{x}, current)
  {
    forall id, contents | LivesIn(all, current, id, contents)
      ensures LivesIn(all - multiset{x}, current, id, contents)
    {
      var z :| z in all && z.id == id && z.contents == contents && !Erased(current, z);
      assert z in all - multiset{x};
    }
  }

  lemma KeepsItself(all: multiset<TString>, current: bool)
    ensures Keeps(all, all, current)
  {
  }

  lemma KeepsOn(a: multiset<TString>, b: multiset<TString>, c: multiset<TString>, current: bool)
    requires Keeps(a, b, current) && Keeps(b, c, current)
    ensures Keeps(a, c, current)
  {
  }

  /** Sweeping a chain erases its dead strings and no others. */
  lemma {:induction false} SweepOk(all: multiset<TString>, current: bool, chain: seq<TString>, next: nat)
    requires Canonical(all) && multiset(chain) <= all && forall z :: z in all ==> z.id < next
    ensures
      var all' := all - multiset(chain) + multiset(Swept(current, chain));
      Canonical(all') && Keeps(all, all', current) && forall z :: z in all' ==> z.id < next
    decreases |chain|
  {
    hide Canonical, Keeps, Erased, Whitened;
    KeepsItself(all, current);
    if chain == [] {
      assert all - multiset(chain) + multiset(Swept(current, chain)) == all;
    } else {
      var x, rest := chain[0], chain[1..];
      assert chain == [x] + rest;
      var kept := if Erased(current, x) then [] else [Whitened(current, x)];
      var all1 := all - multiset{x} + multiset(kept);
      SweepFirst(all, x, current, next);
      assert Swept(current, chain) == kept + Swept(current, rest);
      SweepSum(all, x, rest, kept, Swept(current, rest));
      SweepOk(all1, current, rest, next);
      KeepsOn(all, all1, all - multiset(chain) + multiset(Swept(current, chain)), current);
    }
  }

  lemma SweepFirst(all: multiset<TString>, x: TString, current: bool, next: nat)
    requires Canonical(all) && x in all && forall z :: z in all ==> z.id < next
    ensures
      var kept := if Erased(current, x) then [] else [Whitened(current, x)];
      var all1 := all - multiset{x} + multiset(kept);
      Canonical(all1) && Keeps(all, all1, current) && forall z :: z in all1 ==> z.id < next
  {
    if Erased(current, x) {
      ErasedKeeps(all, x, current);
      assert all - multiset{x} + multiset([]) == all - multiset{x};
    } else {
      var w := Whitened(current, x);
      assert multiset([w]) == multiset{w};
      Remarked(all, x, w, next);
      RemarkedKeeps(all, x, w, current);
    }
  }

  lemma SweepSum(all: multiset<TString>, x: TString, rest: seq<TString>, kept: seq<TString>, swept: seq<TString>)
    requires multiset([x] + rest) <= all
    ensures
      var all1 := all - multiset{x} + multiset(kept);
      x in all && multiset(rest) <= all1 &&
      all - multiset([x] + rest) + multiset(kept + swept) == all1 - multiset(rest) + multiset(swept)
  {
    assert multiset([x] + rest) == multiset{x} + multiset(rest);
    assert multiset(kept + swept) == multiset(kept) + multiset(swept);
    assert multiset(rest) <= all - multiset{x};
  }

  /** The table of strings and what of the state of the collector it depends on. */
  class Strings {
    const hashOf: HashOf
    var hash: array<seq<TString>>
    var nuse: nat
    var current: bool
    var sweeping: bool
    var sweepstrgc: nat
    /** The next address that `luaM_malloc` returns. */
    var next: nat

    constructor (h: HashOf)
      ensures Valid() && fresh(hash) && All(hash[..]) == multiset{} && hashOf == h && !sweeping
    {
      hashOf, nuse, current, sweeping, sweepstrgc, next := h, 0, false, false, 0, 0;
      hash := new seq<TString>[MINSTRTABSIZE](_ => []);
      new;
      AllEmpty(hash[..]);
    }

    ghost predicate Valid()
      reads this, hash
    {
      && hash.Length > 0 && Placed(hashOf, hash[..]) && Canonical(Table())
      && nuse == |Table()| && (forall x :: x in Table() ==> x.id < next) && (sweeping ==> sweepstrgc < hash.Length)
    }

    ghost function Table(): multiset<TString>
      reads this, hash
    {
      All(hash[..])
    }

    ghost predicate Live(id: nat, contents: string)
      reads this, hash
    {
      LivesIn(Table(), current, id, contents)
    }

    /** `luaS_resize`. */
    method Resize(newsize: nat)
      requires Valid() && newsize > 0
      modifies this`hash
      ensures Valid() && Table() == old(Table())
      ensures if sweeping then hash == old(hash) else hash.Length == newsize && fresh(hash)
    {
      hide All, Lmod, Canonical, Placed, Moving;
      if sweeping { return; }
      ghost var t := hash[..];
      PlacedHashes(hashOf, t);
      var newhash := new seq<TString>[newsize](_ => []);
      NewBuckets(hashOf, newhash[..]);
      NewBuckets(hashOf, t[..0]);
      for i := 0 to hash.Length
        invariant hash == old(hash) && hash[..] == t && Placed(hashOf, newhash[..])
        invariant All(newhash[..]) == All(t[..i])
      {
        var p := hash[i];
        ghost var before := newhash[..];
        NotMoved(before, p);
        while p != []
          invariant hash == old(hash) && hash[..] == t && Placed(hashOf, newhash[..])
          invariant forall x :: x in p ==> x.hash == hashOf(x.contents)
          invariant Moving(newhash[..], p, before, t[i])
          decreases |p|
        {
          var x := p[0];
          var h1 := Lmod(x.hash, newsize);
          Chained(hashOf, newhash[..], x);
          ghost var n := newhash[..];
          newhash[h1] := [x] + newhash[h1];
          assert newhash[..] == n[h1 := [x] + n[h1]];
          MovingOn(n, newhash[..], p, before, t[i]);
          p := p[1..];
        }
        AllMoved(newhash[..], before, t[i]);
        AllNext(t, i);
      }
      assert t[..hash.Length] == t;
      hash := newhash;
    }

    /** `newlstr`. */
    method Create(str: string) returns (ts: TString)
      requires Valid() && forall x :: x in Table() ==> x.contents != str
      modifies this`hash, this`nuse, this`next, hash
      ensures Valid() && (hash == old(hash) || fresh(hash))
      ensures ts.contents == str && ts.id == old(next) && !IsDead(current, ts.marked) && !ts.marked.fixed
      ensures Table() == old(Table()) + multiset{ts}
    {
      hide All, Lmod, Placed, Canonical;
      ts := TString(next, str, hashOf(str), White(current));
      next := next + 1;
      var h := Lmod(ts.hash, hash.Length);
      Chained(hashOf, hash[..], ts);
      OneMore(Table(), ts);
      ghost var t := hash[..];
      hash[h] := [ts] + hash[h];
      assert hash[..] == t[h := [ts] + t[h]];
      nuse := nuse + 1;
      if nuse > hash.Length && hash.Length <= MAX_INT / 2 { Resize(hash.Length * 2); }
    }

    /** `luaS_newlstr`: the string of these contents, which does not die in this cycle. */
    method NewLStr(str: string) returns (ts: TString)
      requires Valid()
      modifies this`hash, this`nuse, this`next, hash
      ensures Valid() && (hash == old(hash) || fresh(hash))
      ensures ts in Table() && ts.contents == str && !IsDead(current, ts.marked) && Live(ts.id, str)
      ensures
        forall x :: x in old(Table()) && x.contents == str ==>
          ts == x.(marked := ts.marked) && Table() == old(Table()) - multiset{x} + multiset{ts}
      ensures
        (forall x :: x in old(Table()) ==> x.contents != str) ==>
          ts.id == old(next) && Table() == old(Table()) + multiset{ts}
      ensures Keeps(old(Table()), Table(), current)
    {
      hide All, Lmod, Placed, Canonical;
      ghost var t, all := hash[..], Table();
      var h, i := Lmod(hashOf(str), hash.Length), 0;
      while i < |hash[h]| && hash[h][i].contents != str
        invariant i <= |hash[h]| && forall k :: 0 <= k < i ==> hash[h][k].contents != str
        modifies {}
        decreases |hash[h]| - i
      {
        i := i + 1;
      }
      if i < |hash[h]| {
        ts := hash[h][i];
        ghost var x := ts;
        OnlyHere(all, hashOf, t, h, x);
        if IsDead(current, ts.marked) {
          ts := Changed(ts);
          hash[h] := hash[h][i := ts];
        }
        assert t[h][i := x] == t[h];
        assert hash[..] == t[h := t[h][i := ts]];
        Replaced(hashOf, t, h, i, ts);
        Remarked(all, x, ts, next);
        RemarkedKeeps(all, x, ts, current);
        return;
      }
      NotHere(all, hashOf, t, h, str);
      ts := Create(str);
      MoreKeeps(all, ts, current);
    }

    /** The step of the collector that sweeps the next bucket (`GCSsweepstring`). */
    method SweepNext()
      requires Valid() && sweeping
      modifies this`nuse, this`sweeping, this`sweepstrgc, hash
      ensures Valid() && sweepstrgc == old(sweepstrgc) + 1 && sweeping == (sweepstrgc < hash.Length)
      ensures Keeps(old(Table()), Table(), current)
      ensures forall b :: 0 <= b < hash.Length && b != old(sweepstrgc) ==> hash[b] == old(hash[b])
      ensures forall x :: x in hash[old(sweepstrgc)] ==> !IsDead(current, x.marked)
    {
      hide All, Lmod, Placed, Canonical;
      ghost var t, all := hash[..], Table();
      var b := sweepstrgc;
      var chain := hash[b];
      var kept := Swept(current, chain);
      SweptWhole(hashOf, t, b, current, next);
      hash[b] := kept;
      assert hash[..] == t[b := kept];
      nuse := nuse - (|chain| - |kept|);
      sweepstrgc := sweepstrgc + 1;
      if sweepstrgc >= hash.Length { sweeping := false; }
    }

    /** `checkSizes`: the table is made smaller when it is mostly empty. */
    method CheckSizes()
      requires Valid()
      modifies this`hash
      ensures Valid() && Table() == old(Table()) && (hash == old(hash) || fresh(hash))
    {
      if nuse < hash.Length / 4 && hash.Length > MINSTRTABSIZE * 2 { Resize(hash.Length / 2); }
    }

    /** The atomic step: the white of the strings not marked becomes the old one. */
    method Flip()
      requires Valid() && !sweeping
      modifies this`current, this`sweeping, this`sweepstrgc
      ensures Valid() && sweeping && sweepstrgc == 0 && current == !old(current) && Table() == old(Table())
    {
      current, sweeping, sweepstrgc := !current, true, 0;
    }

    /** One step. Sweeping is a step only while the strings are swept. */
    method Step(op: Op)
      requires Valid()
      modifies this, hash
      ensures Valid() && (hash == old(hash) || fresh(hash)) && current == old(current)
      ensures Keeps(old(Table()), Table(), current)
    {
      hide All, Placed, Canonical, LivesIn;
      match op {
        case Intern(str) => var ts := NewLStr(str);
        case Sweep => if sweeping { SweepNext(); }
        case Shrink => CheckSizes();
      }
    }

    /** Any steps up to the end of a sweep, other than marking: interning, sweeping and resizing. */
    method Run(ops: seq<Op>)
      requires Valid()
      modifies this, hash
      ensures Valid() && (hash == old(hash) || fresh(hash)) && current == old(current)
      ensures Keeps(old(Table()), Table(), current)
    {
      hide Valid, Keeps, All, Placed, Canonical, LivesIn;
      KeepsItself(Table(), current);
      for i := 0 to |ops|
        invariant Valid() && (hash == old(hash) || fresh(hash)) && current == old(current)
        invariant Keeps(old(Table()), Table(), current)
      {
        ghost var t := Table();
        Step(ops[i]);
        KeepsOn(old(Table()), t, Table(), current);
      }
    }
  }

  datatype Op = Intern(str: string) | Sweep | Shrink

  lemma OneMore(all: multiset<TString>, ts: TString)
    requires Canonical(all) && forall x :: x in all ==> x.id < ts.id && x.contents != ts.contents
    ensures Canonical(all + multiset{ts}) && |all + multiset{ts}| == |all| + 1
  {
    assert ts !in all;
    forall x
      ensures (all + multiset{ts})[x] <= 1
    {
    }
  }

  lemma MoreKeeps(all: multiset<TString>, ts: TString, current: bool)
    ensures Keeps(all, all + multiset{ts}, current)
  {
    var all' := all + multiset{ts};
    forall id, contents | LivesIn(all, current, id, contents)
      ensures LivesIn(all', current, id, contents)
    {
      var z :| z in all && z.id == id && z.contents == contents && !Erased(current, z);
      assert z in all';
    }
  }

  /** A string found in its chain is the only one of these contents. */
  lemma OnlyHere(all: multiset<TString>, h: HashOf, t: seq<seq<TString>>, b: nat, x: TString)
    requires all == All(t) && Canonical(all) && b < |t| && x in t[b]
    ensures x in all && forall y :: y in all && y.contents == x.contents ==> y == x
  {
    AllHas(t, x);
  }

  lemma NotHere(all: multiset<TString>, h: HashOf, t: seq<seq<TString>>, b: nat, str: string)
    requires all == All(t) && Placed(h, t) && |t| > 0 && b == Lmod(h(str), |t|)
    requires forall k :: 0 <= k < |t[b]| ==> t[b][k].contents != str
    ensures forall x :: x in all ==> x.contents != str
  {
    forall x | x in all
      ensures x.contents != str
    {
      InBucket(h, t, x);
    }
  }

  lemma Replaced(h: HashOf, t: seq<seq<TString>>, b: nat, i: nat, y: TString)
    requires b < |t| && i < |t[b]| && Placed(h, t) && y == t[b][i].(marked := y.marked)
    ensures
      var t' := t[b := t[b][i := y]];
      Placed(h, t') && All(t') == All(t) - multiset{t[b][i]} + multiset{y}
  {
    hide All, Lmod;
    var x, s := t[b][i], t[b][i := y];
    AllWith(t, b, s);
    AllHas(t, x);
    assert multiset(s) == multiset(t[b]) - multiset{x} + multiset{y};
    assert x in multiset(t[b]);
    Cancel(All(t[b := s]), All(t) - multiset{x} + multiset{y}, multiset(t[b]));
    assert forall z :: z in s ==> z in t[b] || z == y;
  }

  lemma PartOfAll(t: seq<seq<TString>>, b: nat)
    requires b < |t|
    ensures multiset(t[b]) <= All(t)
  {
    AllWith(t, b, []);
    forall x
      ensures multiset(t[b])[x] <= All(t)[x]
    {
      assert (All(t[b := []]) + multiset(t[b]))[x] == (All(t) + multiset([]))[x];
    }
  }

  lemma SweptWhole(h: HashOf, t: seq<seq<TString>>, b: nat, current: bool, next: nat)
    requires b < |t| && Placed(h, t) && Canonical(All(t)) && forall x :: x in All(t) ==> x.id < next
    ensures
      var kept := Swept(current, t[b]);
      var t' := t[b := kept];
      && Placed(h, t') && Canonical(All(t')) && (forall x :: x in All(t') ==> x.id < next)
      && |kept| <= |t[b]| && |All(t')| == |All(t)| - (|t[b]| - |kept|) && Keeps(All(t), All(t'), current)
      && (forall x :: x in kept ==> !IsDead(current, x.marked))
  {
    hide All, Lmod, Canonical, Keeps;
    var kept := Swept(current, t[b]);
    SweptIs(current, t[b]);
    AllWith(t, b, kept);
    PartOfAll(t, b);
    SweepOk(All(t), current, t[b], next);
    Cancel(All(t[b := kept]), All(t) - multiset(t[b]) + multiset(kept), multiset(t[b]));
  }

  lemma PlacedHashes(h: HashOf, t: seq<seq<TString>>)
    requires Placed(h, t)
    ensures forall b, x :: 0 <= b < |t| && x in t[b] ==> x.hash == h(x.contents)
  {
  }

  lemma NewBuckets(h: HashOf, t: seq<seq<TString>>)
    requires forall b :: 0 <= b < |t| ==> t[b] == []
    ensures Placed(h, t) && All(t) == multiset{}
  {
    AllEmpty(t);
  }

  lemma AllHead(t: seq<seq<TString>>, i: nat)
    requires 0 < i <= |t|
    ensures All(t[..i]) == multiset(t[0]) + All(t[1..][..i - 1])
  {
    assert t[..i][1..] == t[1..][..i - 1];
  }

  lemma {:induction false} AllNext(t: seq<seq<TString>>, i: nat)
    requires i < |t|
    ensures All(t[..i + 1]) == All(t[..i]) + multiset(t[i])
    decreases i
  {
    AllHead(t, i + 1);
    if i > 0 {
      hide All;
      AllHead(t, i);
      AllNext(t[1..], i - 1);
    }
  }
}
