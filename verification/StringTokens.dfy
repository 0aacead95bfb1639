/** Strings written by the format `%q` (lua-5.1/lstrlib.c:695-718) and read as a token
    (lua-5.1/llex.c:126-134, 275-328). A `char` stands for a byte. */
module StringTokens {

  const UCHAR_MAX: nat := 255
  const NEWLINE := '\n'
  const RETURN := '\r'

  // ----- writing -----

  function QuotedChar(c: char): string {
    if c == '"' || c == '\\' || c == NEWLINE then ['\\', c]
    else if c == '\0' then "\\000"
    else [c]
  }

  function QuotedBody(s: string): string {
    if s == "" then "" else QuotedChar(s[0]) + QuotedBody(s[1..])
  }

  function Quoted(s: string): string {
    "\"" + QuotedBody(s) + "\""
  }

  /** `addquoted`. */
  method AddQuoted(s: string) returns (b: string)
    ensures b == Quoted(s)
  {
    hide QuotedBody;
    b := "\"";
    var i := 0;
    assert s[0..] == s;
    while i < |s|
      invariant 0 <= i <= |s| && b + QuotedBody(s[i..]) == "\"" + QuotedBody(s)
      decreases |s| - i
    {
      BodyStep(b, s, i);
      match s[i] {
        case '"' => b := b + ['\\', '"'];
        case '\\' => b := b + ['\\', '\\'];
        case '\n' => b := b + ['\\', '\n'];
        case '\0' => b := b + "\\000";
        case c => b := b + [c];
      }
      i := i + 1;
    }
    BodyEnd();
    assert s[|s|..] == "" && b + "" == b;
    b := b + "\"";
  }

  lemma BodyStep(b: string, s: string, i: nat)
    requires i < |s|
    ensures b + QuotedBody(s[i..]) == b + QuotedChar(s[i]) + QuotedBody(s[i + 1..])
  {
    assert s[i..][1..] == s[i + 1..];
    assert b + (QuotedChar(s[i]) + QuotedBody(s[i + 1..])) == b + QuotedChar(s[i]) + QuotedBody(s[i + 1..]);
  }

  lemma BodyEnd()
    ensures QuotedBody("") == ""
  {
  }

  // ----- reading -----

  datatype Scanned = Ok(value: string, end: nat) | Unfinished | EscapeTooLarge

  predicate IsDigit(c: char) {
    '0' <= c <= '9'
  }

  predicate IsNewline(c: char) {
    c == NEWLINE || c == RETURN
  }

  /** The next character after a newline, which may be of two characters (`inclinenumber`). */
  function AfterNewline(inp: string, i: nat): (n: nat)
    requires i < |inp|
    ensures i < n <= |inp|
  {
    if i + 1 < |inp| && IsNewline(inp[i + 1]) && inp[i + 1] != inp[i] then i + 2 else i + 1
  }

  datatype Number = Number(value: nat, end: nat)

  /** Up to `n` digits after a number that is `c` so far. */
  function Decimal(inp: string, i: nat, n: nat, c: nat): (d: Number)
    requires i <= |inp|
    ensures i <= d.end <= |inp|
    decreases n
  {
    if n == 0 || i == |inp| || !IsDigit(inp[i]) then Number(c, i)
    else Decimal(inp, i + 1, n - 1, 10 * c + (inp[i] - '0') as nat)
  }

  function SimpleEscape(e: char): char {
    match e
    case 'a' => 7 as char
    case 'b' => 8 as char
    case 'f' => 12 as char
    case 'n' => '\n'
    case 'r' => '\r'
    case 't' => '\t'
    case 'v' => 11 as char
    case _ => e
  }

  function Before(c: char, rest: Scanned): Scanned {
    if rest.Ok? then rest.(value := [c] + rest.value) else rest
  }

  /** The string that is read from position `i` on up to the delimiter. */
  function ReadFrom(inp: string, i: nat, del: char): (r: Scanned)
    requires i <= |inp|
    ensures r.Ok? ==> i < r.end <= |inp|
    decreases |inp| - i
  {
    if i == |inp| then Unfinished
    else if inp[i] == del then Ok("", i + 1)
    else if IsNewline(inp[i]) then Unfinished
    else if inp[i] == '\\' then
      if i + 1 == |inp| then Unfinished
      else if IsNewline(inp[i + 1]) then Before(NEWLINE, ReadFrom(inp, AfterNewline(inp, i + 1), del))
      else if IsDigit(inp[i + 1]) then
        var d := Decimal(inp, i + 1, 3, 0);
        if d.value > UCHAR_MAX then EscapeTooLarge else Before(d.value as char, ReadFrom(inp, d.end, del))
      else Before(SimpleEscape(inp[i + 1]), ReadFrom(inp, i + 2, del))
    else Before(inp[i], ReadFrom(inp, i + 1, del))
  }

  /** The lexer, with the current character at `pos`. */
  class LexState {
    const inp: string
    var pos: nat

    constructor (input: string)
      ensures inp == input && pos == 0
    {
      inp, pos := input, 0;
    }

    /** `inclinenumber`, but for the line number. */
    method IncLineNumber()
      requires pos < |inp| && IsNewline(inp[pos])
      modifies this
      ensures pos == AfterNewline(inp, old(pos))
    {
      var first := inp[pos];
      pos := pos + 1;
      if pos < |inp| && IsNewline(inp[pos]) && inp[pos] != first { pos := pos + 1; }
    }

    /** The digits of `\ddd`. */
    method ReadDecimal() returns (c: nat)
      requires pos < |inp| && IsDigit(inp[pos])
      modifies this
      ensures Number(c, pos) == Decimal(inp, old(pos), 3, 0)
    {
      var i := 0;
      c := 0;
      while true
        invariant i < 3 && pos < |inp| && IsDigit(inp[pos])
        invariant Decimal(inp, pos, 3 - i, c) == Decimal(inp, old(pos), 3, 0)
        decreases 3 - i
      {
        c := 10 * c + (inp[pos] - '0') as nat;
        pos := pos + 1;
        i := i + 1;
        if !(i < 3 && pos < |inp| && IsDigit(inp[pos])) { break; }
      }
    }

    /** `read_string`, from the delimiter at the current position on. */
    method ReadString(del: char) returns (r: Scanned)
      requires pos < |inp| && inp[pos] == del
      modifies this
      ensures r == ReadFrom(inp, old(pos) + 1, del) && (r.Ok? ==> pos == r.end)
    {
      pos := pos + 1;
      var buff := "";
      ghost var result := ReadFrom(inp, pos, del);
      while pos < |inp| && inp[pos] != del
        invariant pos <= |inp| && result == After(buff, ReadFrom(inp, pos, del))
        decreases |inp| - pos
      {
        ghost var rest := ReadFrom(inp, pos, del);
        ghost var buff0 := buff;
        if IsNewline(inp[pos]) { return Unfinished; }
        if inp[pos] == '\\' {
          pos := pos + 1;
          if pos == |inp| { return Unfinished; }
          if IsNewline(inp[pos]) {
            buff := buff + [NEWLINE];
            IncLineNumber();
          } else if IsDigit(inp[pos]) {
            var c := ReadDecimal();
            if c > UCHAR_MAX { return EscapeTooLarge; }
            buff := buff + [c as char];
          } else {
            buff := buff + [SimpleEscape(inp[pos])];
            pos := pos + 1;
          }
        } else {
          buff := buff + [inp[pos]];
          pos := pos + 1;
        }
        AfterBefore(buff0, buff[|buff0|], ReadFrom(inp, pos, del));
      }
      if pos == |inp| { return Unfinished; }
      pos := pos + 1;
      assert buff + "" == buff;
      r := Ok(buff, pos);
    }
  }

  function After(s: string, rest: Scanned): Scanned {
    if rest.Ok? then rest.(value := s + rest.value) else rest
  }

  lemma AfterBefore(s: string, c: char, rest: Scanned)
    ensures After(s, Before(c, rest)) == After(s + [c], rest)
  {
    if rest.Ok? { assert s + ([c] + rest.value) == s + [c] + rest.value; }
  }

  // ----- reading what was written -----

  /** What is read of the body of a string written: a carriage return ends it with an error, unless
      it follows a newline, with which it is taken for a single one. */
  function Reread(s: string): (r: Scanned)
    decreases |s|
  {
    if s == "" then Ok("", 0)
    else if s[0] == RETURN then Unfinished
    else if s[0] == NEWLINE && |s| > 1 && s[1] == RETURN then Before(NEWLINE, Reread(s[2..]))
    else Before(s[0], Reread(s[1..]))
  }

  /** The input from `i` on is the body of `s` and the closing quote. */
  ghost predicate Holds(inp: string, i: nat, s: string) {
    i + |QuotedBody(s)| < |inp| && inp[i..i + |QuotedBody(s)|] == QuotedBody(s) && inp[i + |QuotedBody(s)|] == '"'
  }

  lemma HoldsRest(inp: string, i: nat, s: string)
    requires s != "" && Holds(inp, i, s)
    ensures
      var q := QuotedChar(s[0]);
      i + |q| < |inp| && Holds(inp, i + |q|, s[1..]) && inp[i..i + |q|] == q
  {
    var q, n := QuotedChar(s[0]), |QuotedBody(s)|;
    Slices(inp, i, i + n, |q|);
    assert QuotedBody(s)[..|q|] == q && QuotedBody(s)[|q|..] == QuotedBody(s[1..]);
  }

  lemma Slices(s: string, a: nat, b: nat, m: nat)
    requires a + m <= b <= |s|
    ensures s[a..b][..m] == s[a..a + m] && s[a..b][m..] == s[a + m..b]
  {
  }

  predicate SameReading(a: Scanned, b: Scanned, end: nat) {
    if b.Ok? then a == Ok(b.value, end) else a == b
  }

  lemma RereadPair(inp: string, i: nat, s: string)
    requires Holds(inp, i, s) && |s| > 1 && s[0] == NEWLINE && s[1] == RETURN
    requires SameReading(ReadFrom(inp, i + 3, '"'), Reread(s[2..]), i + 3 + |QuotedBody(s[2..])| + 1)
    ensures SameReading(ReadFrom(inp, i, '"'), Reread(s), i + |QuotedBody(s)| + 1)
  {
    hide ReadFrom, Holds;
    HoldsRest(inp, i, s);
    HoldsRest(inp, i + 2, s[1..]);
    assert s[1..][1..] == s[2..] && QuotedChar(RETURN) == [RETURN];
    assert inp[i + 2..i + 3][0] == RETURN;
    ReadsPair(inp, i);
  }

  lemma RereadChar(inp: string, i: nat, s: string)
    requires Holds(inp, i, s) && s != "" && !(|s| > 1 && s[0] == NEWLINE && s[1] == RETURN)
    requires var j := i + |QuotedChar(s[0])|;
      j < |inp| && SameReading(ReadFrom(inp, j, '"'), Reread(s[1..]), j + |QuotedBody(s[1..])| + 1)
    ensures SameReading(ReadFrom(inp, i, '"'), Reread(s), i + |QuotedBody(s)| + 1)
  {
    hide ReadFrom, Holds;
    HoldsRest(inp, i, s);
    if s[0] == NEWLINE { NotReturn(inp, i + |QuotedChar(s[0])|, s[1..]); }
    ReadsChar(inp, i, s[0]);
  }

  lemma {:induction false} RereadIs(inp: string, i: nat, s: string)
    requires Holds(inp, i, s)
    ensures SameReading(ReadFrom(inp, i, '"'), Reread(s), i + |QuotedBody(s)| + 1)
    decreases |s|
  {
    hide ReadFrom, Holds;
    if s == "" {
      ReadsEnd(inp, i);
    } else {
      HoldsRest(inp, i, s);
      var j := i + |QuotedChar(s[0])|;
      if s[0] == NEWLINE && |s| > 1 && s[1] == RETURN {
        HoldsRest(inp, j, s[1..]);
        assert s[1..][1..] == s[2..];
        RereadIs(inp, j + 1, s[2..]);
        RereadPair(inp, i, s);
      } else {
        RereadIs(inp, j, s[1..]);
        RereadChar(inp, i, s);
      }
    }
  }

  lemma ReadsEnd(inp: string, i: nat)
    requires Holds(inp, i, "")
    ensures i < |inp| && ReadFrom(inp, i, '"') == Ok("", i + 1)
  {
  }

  /** A character written is read as itself. */
  lemma ReadsChar(inp: string, i: nat, c: char)
    requires i + |QuotedChar(c)| < |inp| && inp[i..i + |QuotedChar(c)|] == QuotedChar(c)
    requires c == NEWLINE ==> inp[i + 2] != RETURN
    ensures
      ReadFrom(inp, i, '"') ==
      if c == RETURN then Unfinished else Before(c, ReadFrom(inp, i + |QuotedChar(c)|, '"'))
  {
    var q := QuotedChar(c);
    var w := inp[i..i + |q|];
    assert forall k :: 0 <= k < |q| ==> inp[i + k] == w[k];
    assert inp[i] == q[0] && (|q| > 1 ==> inp[i + 1] == q[1]);
    if c == '\0' {
      assert inp[i + 2] == q[2] && inp[i + 3] == q[3];
      Zeros(inp, i + 1);
    }
  }

  lemma Zeros(inp: string, i: nat)
    requires i + 3 <= |inp| && inp[i] == inp[i + 1] == inp[i + 2] == '0'
    ensures Decimal(inp, i, 3, 0) == Number(0, i + 3)
  {
    assert Decimal(inp, i + 2, 1, 0) == Decimal(inp, i + 3, 0, 0);
    assert Decimal(inp, i + 1, 2, 0) == Decimal(inp, i + 2, 1, 0);
  }

  lemma ReadsPair(inp: string, i: nat)
    requires i + 3 <= |inp| && inp[i..i + 2] == QuotedChar(NEWLINE) && inp[i + 2] == RETURN
    ensures ReadFrom(inp, i, '"') == Before(NEWLINE, ReadFrom(inp, i + 3, '"'))
  {
    assert inp[i] == inp[i..i + 2][0] && inp[i + 1] == inp[i..i + 2][1];
  }

  lemma NotReturn(inp: string, i: nat, s: string)
    requires Holds(inp, i, s) && !(s != "" && s[0] == RETURN)
    ensures inp[i] != RETURN
  {
    if s != "" {
      HoldsRest(inp, i, s);
      assert inp[i] == inp[i..i + |QuotedChar(s[0])|][0];
    }
  }

  lemma {:induction false} RereadLoses(s: string)
    ensures Reread(s).Ok? ==> |Reread(s).value| <= |s| && (RETURN in s ==> |Reread(s).value| < |s|)
    ensures RETURN !in s ==> Reread(s) == Ok(s, 0)
    decreases |s|
  {
    if s != "" {
      RereadLoses(s[1..]);
      if |s| > 1 { RereadLoses(s[2..]); }
      assert s == [s[0]] + s[1..];
    }
  }

  /** A string written with quotes is read again as it was, up to just behind the closing quote,
      exactly if it holds no carriage return. */
  lemma QuotingRoundTrip(s: string, rest: string)
    ensures
      var inp := Quoted(s) + rest;
      ReadFrom(inp, 1, '"') == Ok(s, |Quoted(s)|) <==> RETURN !in s
  {
    var inp, n := Quoted(s) + rest, |QuotedBody(s)|;
    assert inp[1..1 + n] == QuotedBody(s) && inp[1 + n] == '"';
    RereadIs(inp, 1, s);
    RereadLoses(s);
  }

  // ----- escape sequences, as section 2.1 of the Lua 5.1 Reference Manual lists them -----

  /** What a letter or sign stands for after a backslash, by its code. */
  const ESCAPES: seq<(char, char)> := [
    ('a', 7 as char), ('b', 8 as char), ('t', 9 as char), ('n', 10 as char), ('v', 11 as char), ('f', 12 as char),
    ('r', 13 as char), ('"', 34 as char), ('\'', 39 as char), ('\\', 92 as char)
  ]

  lemma LetterEscape(inp: string, i: nat, del: char, k: nat)
    requires i + 1 < |inp| && inp[i] == '\\' && del != '\\' && k < |ESCAPES| && inp[i + 1] == ESCAPES[k].0
    ensures ReadFrom(inp, i, del) == Before(ESCAPES[k].1, ReadFrom(inp, i + 2, del))
  {
  }

  /** Up to three decimal digits give the code of a character; more than 255 is an error. */
  lemma DecimalEscape(inp: string, i: nat, del: char, n: nat)
    requires 1 <= n <= 3 && i + n < |inp| && inp[i] == '\\' && del != '\\'
    requires forall k :: i < k <= i + n ==> '0' <= inp[k] <= '9'
    requires n == 3 || i + n + 1 == |inp| || !('0' <= inp[i + n + 1] <= '9')
    ensures var d := (k: int) requires i < k <= i + n => (inp[k] - '0') as nat;
      var code: nat := if n == 1 then d(i + 1) else if n == 2 then 10 * d(i + 1) + d(i + 2)
        else 100 * d(i + 1) + 10 * d(i + 2) + d(i + 3);
      ReadFrom(inp, i, del) ==
      if code > 255 then EscapeTooLarge else Before(code as char, ReadFrom(inp, i + n + 1, del))
  {
    var c := (inp[i + 1] - '0') as nat;
    assert '0' <= inp[i + 1] <= '9';
    assert Decimal(inp, i + 1, 3, 0) == Decimal(inp, i + 2, 2, c);
    if n >= 2 {
      assert '0' <= inp[i + 2] <= '9';
      assert Decimal(inp, i + 2, 2, c) == Decimal(inp, i + 3, 1, 10 * c + (inp[i + 2] - '0') as nat);
      if n == 3 { assert '0' <= inp[i + 3] <= '9'; }
    }
  }

  /** An escaped line break is a newline, whether it is written with one character or with two. */
  lemma LineBreakEscape(inp: string, i: nat, del: char)
    requires i + 1 < |inp| && inp[i] == '\\' && del != '\\' && (inp[i + 1] == '\n' || inp[i + 1] == '\r')
    ensures var two := i + 2 < |inp| && (inp[i + 1..i + 3] == "\r\n" || inp[i + 1..i + 3] == "\n\r");
      ReadFrom(inp, i, del) == Before('\n', ReadFrom(inp, if two then i + 3 else i + 2, del))
  {
    if i + 2 < |inp| {
      assert inp[i + 1..i + 3] == [inp[i + 1], inp[i + 2]];
    }
  }

  /** Other characters stand for themselves, up to the delimiter; a line break or the end of the
      input before it is an error. */
  lemma PlainCharacter(inp: string, i: nat, del: char)
    requires i <= |inp|
    ensures i == |inp| ==> ReadFrom(inp, i, del) == Unfinished
    ensures i < |inp| && inp[i] == del ==> ReadFrom(inp, i, del) == Ok("", i + 1)
    ensures i < |inp| && inp[i] != del && (inp[i] == '\n' || inp[i] == '\r') ==> ReadFrom(inp, i, del) == Unfinished
    ensures i < |inp| && inp[i] !in [del, '\n', '\r', '\\'] ==>
      ReadFrom(inp, i, del) == Before(inp[i], ReadFrom(inp, i + 1, del))
  {
  }
}
