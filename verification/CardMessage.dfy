/**
 * Card messages: `CARDS:<number>` followed by `:<suit>,<value>` for each card and a text.  The
 * server writes them; the console client splits them with a tokenizer that writes zeros into its
 * copy, the web client walks over them by index.
 */
module CardMessage {
  import opened Wrappers
  import opened Cards

  const CARDS_PREFIX: string := "CARDS:"
  const BUFFER_SIZE: nat := 1000
  const VALUES: string := "234567890JQKA"
  const DIGITS: string := "0123456789"

  // ----- decimal numbers --------------------------------------------------------------------------

  predicate IsDigit(c: char) { '0' <= c <= '9' }

  function Digit(c: char): nat { if IsDigit(c) then (c - '0') as nat else 0 }

  /** `%u` as the server prints it. */
  function Decimal(n: nat): (s: string)
    ensures |s| > 0
  {
    if n < 10 then [DIGITS[n]] else Decimal(n / 10) + [DIGITS[n % 10]]
  }

  /** The number that a string of digits stands for. */
  function Value(s: string): nat {
    if s == [] then 0 else 10 * Value(s[..|s| - 1]) + Digit(s[|s| - 1])
  }

  /** How many digits stand at the front. */
  function DigitCount(s: string): (n: nat)
    ensures n <= |s|
  {
    if s == [] || !IsDigit(s[0]) then 0 else 1 + DigitCount(s[1..])
  }

  /** The digits at the front, if there are any. */
  function ScanNumber(s: string): Option<nat> {
    var n := DigitCount(s);
    if n == 0 then None else Some(Value(s[..n]))
  }

  lemma {:induction false} DecimalIsDigits(n: nat)
    ensures forall i :: 0 <= i < |Decimal(n)| ==> IsDigit(Decimal(n)[i])
  {
    assert forall d :: 0 <= d < 10 ==> IsDigit(DIGITS[d]);
    if n >= 10 {
      DecimalIsDigits(n / 10);
    }
  }

  lemma {:induction false} ValueOfDecimal(n: nat)
    ensures Value(Decimal(n)) == n
  {
    assert forall d :: 0 <= d < 10 ==> IsDigit(DIGITS[d]) && Digit(DIGITS[d]) == d;
    if n >= 10 {
      ValueOfDecimal(n / 10);
      assert Decimal(n)[..|Decimal(n)| - 1] == Decimal(n / 10);
    }
  }

  lemma {:induction false} DigitsEndAt(s: string, n: nat)
    requires n <= |s| && (forall i :: 0 <= i < n ==> IsDigit(s[i])) && (n < |s| ==> !IsDigit(s[n]))
    ensures DigitCount(s) == n
  {
    if n > 0 {
      DigitsEndAt(s[1..], n - 1);
    }
  }

  lemma ScanDecimal(n: nat, rest: string)
    requires rest != [] ==> !IsDigit(rest[0])
    ensures ScanNumber(Decimal(n) + rest) == Some(n)
  {
    var s := Decimal(n) + rest;
    DecimalIsDigits(n);
    DigitsEndAt(s, |Decimal(n)|);
    assert s[..|Decimal(n)|] == Decimal(n);
    ValueOfDecimal(n);
  }

  // ----- numbers as the clients read them -------------------------------------------------------------

  /** The blanks of the C locale, and those of ECMAScript beyond them. */
  predicate IsBlank(c: char, script: bool) {
    c == ' ' || '\t' <= c <= '\r' || (script && IsScriptBlank(c as int))
  }

  predicate IsScriptBlank(c: int) {
    c == 0xA0 || c == 0x1680 || 0x2000 <= c <= 0x200A || c == 0x2028 || c == 0x2029 || c == 0x202F || c == 0x205F ||
    c == 0x3000 || c == 0xFEFF
  }

  function Blanks(s: string, script: bool): (n: nat)
    ensures n <= |s|
  {
    if s == [] || !IsBlank(s[0], script) then 0 else 1 + Blanks(s[1..], script)
  }

  function SignLength(s: string): (n: nat)
    ensures n <= |s|
  {
    if s != [] && (s[0] == '+' || s[0] == '-') then 1 else 0
  }

  predicate IsNegative(s: string) { s != [] && s[0] == '-' }

  /** The value of a hexadecimal digit, or 16. */
  function HexDigit(c: char): nat {
    if IsDigit(c) then Digit(c)
    else if 'a' <= c <= 'f' then 10 + (c - 'a') as nat
    else if 'A' <= c <= 'F' then 10 + (c - 'A') as nat
    else 16
  }

  function HexCount(s: string): (n: nat)
    ensures n <= |s|
  {
    if s == [] || HexDigit(s[0]) == 16 then 0 else 1 + HexCount(s[1..])
  }

  function HexValue(s: string): nat {
    if s == [] then 0 else 16 * HexValue(s[..|s| - 1]) + HexDigit(s[|s| - 1])
  }

  function ScanHex(s: string): Option<nat> {
    var n := HexCount(s);
    if n == 0 then None else Some(HexValue(s[..n]))
  }

  predicate HexPrefix(s: string) { |s| >= 2 && s[0] == '0' && (s[1] == 'x' || s[1] == 'X') }

  /** `parseInt`: blanks, a sign, and decimal digits or `0x` and hexadecimal ones. */
  function ParseInt(s: string): Option<int> {
    var t := s[Blanks(s, true)..];
    var u := t[SignLength(t)..];
    match if HexPrefix(u) then ScanHex(u[2..]) else ScanNumber(u)
    case None => None
    case Some(n) =>
      var k: int := n;
      Some(if IsNegative(t) then -k else k)
  }

  const UINT: nat := 0x1_0000_0000

  /** `%u`: blanks, a sign and decimal digits; a negative number wraps. */
  function ScanUnsigned(s: string): Option<nat> {
    var t := s[Blanks(s, false)..];
    match ScanNumber(t[SignLength(t)..])
    case None => None
    case Some(n) => Some(if IsNegative(t) then (UINT - n % UINT) % UINT else n)
  }

  /** How many symbols `%u` consumes. */
  function UnsignedLength(s: string): (n: nat)
    ensures n <= |s|
  {
    var t := s[Blanks(s, false)..];
    Blanks(s, false) + SignLength(t) + DigitCount(t[SignLength(t)..])
  }

  /** On a number as the server writes it, both agree with its value. */
  lemma PlainNumber(s: string)
    requires s != [] && IsDigit(s[0]) && !HexPrefix(s)
    ensures ScanUnsigned(s) == ScanNumber(s) && UnsignedLength(s) == DigitCount(s)
    ensures match ScanNumber(s)
      case None => ParseInt(s) == None
      case Some(n) => ParseInt(s) == Some(n)
  {
    assert Blanks(s, false) == Blanks(s, true) == 0 && s[0..] == s && SignLength(s) == 0;
  }

  lemma DecimalFront(n: nat, rest: string)
    requires rest != [] ==> rest[0] == ':'
    ensures var s := Decimal(n) + rest;
      IsDigit(s[0]) && !HexPrefix(s)
  {
    DecimalIsDigits(n);
    hide Decimal;
    var s := Decimal(n) + rest;
    assert s[0] == Decimal(n)[0];
    if |s| >= 2 {
      assert s[1] == if |Decimal(n)| >= 2 then Decimal(n)[1] else rest[0];
    }
  }

  lemma DecimalIsPlain(n: nat, rest: string)
    requires rest != [] ==> rest[0] == ':'
    ensures ScanUnsigned(Decimal(n) + rest) == Some(n) && ParseInt(Decimal(n) + rest) == Some(n)
  {
    DecimalFront(n, rest);
    assert rest != [] ==> !IsDigit(rest[0]);
    hide Decimal, ScanNumber, ParseInt, ScanUnsigned, UnsignedLength, HexPrefix, IsDigit;
    ScanDecimal(n, rest);
    PlainNumber(Decimal(n) + rest);
  }

  // ----- the server ---------------------------------------------------------------------------------

  /** A card as the clients show it: its suit number and its value symbol. */
  datatype Shown = Shown(suit: int, symbol: string)

  function View(c: Card): Shown { Shown(SuitOf(c), [VALUES[RankOf(c)]]) }

  function CardText(c: Card): (s: string)
    ensures |s| == 4
  {
    [':', DIGITS[SuitOf(c)], ',', VALUES[RankOf(c)]]
  }

  function CardTexts(cards: seq<Card>): (s: string)
    ensures |s| == 4 * |cards|
  {
    if cards == [] then [] else CardTexts(cards[..|cards| - 1]) + CardText(cards[|cards| - 1])
  }

  function Message(cards: seq<Card>): string {
    CARDS_PREFIX + Decimal(|cards|) + CardTexts(cards)
  }

  /** The server's buffer has room for the message; a hand has at most 26 cards. */
  method CardsToString(cards: seq<Card>) returns (str: string)
    requires |Message(cards)| < BUFFER_SIZE
    ensures str == Message(cards) && str[..6] == "CARDS:"
  {
    str := CARDS_PREFIX + Decimal(|cards|);
    for i := 0 to |cards|
      invariant str == CARDS_PREFIX + Decimal(|cards|) + CardTexts(cards[..i])
    {
      assert cards[..i + 1][..i] == cards[..i];
      str := str + [':', DIGITS[SuitOf(cards[i])], ',', VALUES[RankOf(cards[i])]];
    }
    assert cards[..|cards|] == cards;
  }

  /** Different cards look different, so the views determine the cards. */
  lemma ViewsDetermineCards(c: Card, d: Card)
    requires View(c) == View(d)
    ensures c == d
  {
    assert forall i, j :: 0 <= i < j < |VALUES| ==> VALUES[i] != VALUES[j];
    assert View(c).symbol[0] == VALUES[RankOf(c)] && View(d).symbol[0] == VALUES[RankOf(d)];
  }

  /** What a client makes of a message: the cards and the text that follows them, or a refusal. */
  datatype Outcome =
    | Shows(cards: seq<Shown>, text: string)
    | Refused
    | PastEnd       // the console client reads behind its buffer
    | ScriptError   // the web client handles a value that is not there

  // ----- the web client -----------------------------------------------------------------------------

  function Min(a: nat, b: nat): nat { if a < b then a else b }

  lemma MinIsLowerBound(a: nat, b: nat)
    ensures Min(a, b) <= a && Min(a, b) <= b && (Min(a, b) == a || Min(a, b) == b)
  {
  }

  /** The text from `p` on. */
  function Rest(t: string, p: nat): string { if p <= |t| then t[p..] else [] }

  function Slice(t: string, p: nat, e: nat): string { if p <= e <= |t| then t[p..e] else [] }

  function IndexOf(t: string, c: char, from: nat): (i: int)
    requires from <= |t|
    ensures i == -1 || from <= i < |t|
    decreases |t| - from
  {
    if from == |t| then -1 else if t[from] == c then from else IndexOf(t, c, from + 1)
  }

  /** What is shown in the end, with the text from index `i` on, if every value is there. */
  function WebFinish(t: string, i: nat, cards: seq<Shown>, allThere: bool): Outcome {
    if allThere then Shows(cards, Rest(t, i)) else ScriptError
  }

  /** The cards from index `i` on; only the last one can lack its value symbol, and it cannot be shown then. */
  function WebCards(t: string, i: nat, n: nat, shown: seq<Shown>): Outcome
    requires n > 0
    decreases n
  {
    if i + 1 >= |t| || t[i + 1] != ',' || !IsDigit(t[i]) then Refused
    else
      var card := Shown(Digit(t[i]), Slice(t, i + 2, i + 3));
      if n == 1 then WebFinish(t, i + 3, shown + [card], i + 2 < |t|)
      else if i + 3 >= |t| || t[i + 3] != ':' then Refused
      else WebCards(t, i + 4, n - 1, shown + [card])
  }

  /** The number of cards, from index `i` on, and the cards. */
  function WebCount(t: string, i: nat): Outcome
    requires i <= |t|
  {
    var j := IndexOf(t, ':', i);
    if j == -1 then Refused
    else
      match ParseInt(Slice(t, i, Min(i + j, |t|)))
      case None => Refused
      case Some(n) => if n <= 0 then WebFinish(t, j + 1, [], true) else WebCards(t, j + 1, n, [])
  }

  function WebParse(t: string): Outcome
    requires CARDS_PREFIX <= t
  {
    WebCount(t, |CARDS_PREFIX|)
  }

  method AddLineColored(str: string) returns (r: Outcome)
    requires CARDS_PREFIX <= str
    ensures r == WebParse(str)
  {
    var cards: seq<Shown> := [];
    var i := |CARDS_PREFIX|;
    var j := IndexOf(str, ':', i);
    if j == -1 {
      return Refused;
    }
    var number := ParseInt(Slice(str, i, Min(i + j, |str|)));
    if number.None? {
      return Refused;
    }
    var cardNumber := number.value;
    i := j + 1;
    var k := 0;
    var allThere := true;
    assert WebParse(str) == if cardNumber <= 0 then WebFinish(str, i, [], true) else WebCards(str, i, cardNumber, []);
    hide WebParse, WebCount, WebFinish, ParseInt, IndexOf, Slice, Rest, Digit;
    while k < cardNumber
      invariant i >= 0
      invariant k < cardNumber ==> allThere && WebCards(str, i, cardNumber - k, cards) == WebParse(str)
      invariant k >= cardNumber ==> WebParse(str) == WebFinish(str, i, cards, allThere)
    {
      if i + 1 >= |str| || str[i + 1] != ',' {
        return Refused;
      }
      if !IsDigit(str[i]) {
        return Refused;
      }
      var suit := Digit(str[i]);
      var value := Slice(str, i + 2, i + 3);
      cards := cards + [Shown(suit, value)];
      allThere := i + 2 < |str|;
      if k != cardNumber - 1 {
        if i + 3 >= |str| || str[i + 3] != ':' {
          return Refused;
        }
        i := i + 4;
      } else {
        i := i + 3;
      }
      k := k + 1;
    }
    r := WebFinish(str, i, cards, allThere);
  }

  // ----- the console client -------------------------------------------------------------------------

  function SkipColons(t: string, p: nat): (q: nat)
    requires p <= |t|
    ensures p <= q <= |t|
    decreases |t| - p
  {
    if p < |t| && t[p] == ':' then SkipColons(t, p + 1) else p
  }

  function TokenEnd(t: string, p: nat): (e: nat)
    requires p <= |t|
    ensures p <= e <= |t|
    decreases |t| - p
  {
    if p < |t| && t[p] != ':' then TokenEnd(t, p + 1) else p
  }

  /** `swscanf` with `%u,%lc`. */
  function ScanCard(s: string): Option<Shown> {
    var n := UnsignedLength(s);
    if ScanUnsigned(s).None? || n + 1 >= |s| || s[n] != ',' then None
    else Some(Shown(ScanUnsigned(s).value, [s[n + 1]]))
  }

  /** The cards from position `p` on; the last one is not cut off at a colon. */
  function ConsoleCards(t: string, p: nat, n: nat, shown: seq<Shown>): Outcome
    requires p <= |t| && n > 0
    decreases n
  {
    if n == 1 then
      match ScanCard(Rest(t, p))
      case None => Refused
      case Some(card) => EndOfList(t, p, shown + [card])
    else
      var q := SkipColons(t, p);
      var e := TokenEnd(t, q);
      if q == |t| || ScanCard(Slice(t, q, e)).None? then Refused
      else ConsoleCards(t, Min(e + 1, |t|), n - 1, shown + [ScanCard(Slice(t, q, e)).value])
  }

  /** The list of `n` cards; without cards the text is taken from behind the token that says so. */
  function ConsoleList(t: string, p: nat, n: nat, tok: nat): Outcome
    requires p <= |t|
  {
    if n > 0 then ConsoleCards(t, p, n, []) else EndOfList(t, tok, [])
  }

  /** The text behind the card at `tok`. */
  function EndOfList(t: string, tok: nat, cards: seq<Shown>): Outcome {
    if tok + 3 <= |t| then Shows(cards, Rest(t, tok + 3)) else PastEnd
  }

  /** The number of cards, from position `p` on, and the list. */
  function ConsoleCount(t: string, p: nat): Outcome
    requires p <= |t|
  {
    var q := SkipColons(t, p);
    var e := TokenEnd(t, q);
    if q == |t| || ScanUnsigned(Slice(t, q, e)).None? then Refused
    else ConsoleList(t, Min(e + 1, |t|), ScanUnsigned(Slice(t, q, e)).value, q)
  }

  function ConsoleParse(t: string): Outcome
    requires CARDS_PREFIX <= t
  {
    ConsoleCount(t, |CARDS_PREFIX|)
  }

  /** `wcstok_r` with the delimiter ':'.  `str` is -1 for a null pointer; a result of -1 is one. */
  method WcstokR(buf: array<char>, str: int, nextp: nat, ghost end: nat) returns (ret: int, next: nat)
    requires -1 <= str
    requires var from := if str == -1 then nextp else str;
      from <= end < buf.Length && buf[end] == '\0' && forall k :: from <= k < end ==> buf[k] != '\0'
    modifies buf
    ensures var from: nat := if str == -1 then nextp else str;
      var s := old(buf[..end]);
      var q := SkipColons(s, from);
      var e := TokenEnd(s, q);
      if q == end then ret == -1 && next == nextp && buf[..] == old(buf[..])
      else ret == q && next == Min(e + 1, end) && buf[..] == old(buf[..])[e := '\0']
  {
    var p: nat := if str == -1 then nextp else str;
    ghost var from, s := p, buf[..end];
    while buf[p] == ':'
      invariant from <= p <= end && SkipColons(s, p) == SkipColons(s, from)
      decreases end - p
    {
      p := p + 1;
    }
    if buf[p] == '\0' {
      return -1, nextp;
    }
    ret := p;
    while buf[p] != ':' && buf[p] != '\0'
      invariant ret <= p <= end && TokenEnd(s, p) == TokenEnd(s, ret)
      decreases end - p
    {
      p := p + 1;
    }
    if buf[p] != '\0' {
      buf[p] := '\0';
      p := p + 1;
    }
    next := p;
  }

  /** The zero-terminated text at position `p` of a buffer. */
  function TextAt(b: seq<char>, p: nat): string
    decreases if p < |b| then |b| - p else 0
  {
    if p >= |b| || b[p] == '\0' then [] else [b[p]] + TextAt(b, p + 1)
  }

  lemma {:induction false} TextUpTo(b: seq<char>, t: string, p: nat, e: nat)
    requires p <= e < |b| && e <= |t| && b[e] == '\0' && forall k :: p <= k < e ==> b[k] == t[k] != '\0'
    ensures TextAt(b, p) == t[p..e]
    decreases e - p
  {
    if p < e {
      assert t[p..e] == [t[p]] + t[p + 1..e];
      TextUpTo(b, t, p + 1, e);
    }
  }

  lemma {:induction false} SameSuffixSkips(s: string, t: string, p: nat)
    requires |s| == |t| && p <= |t| && forall k :: p <= k < |t| ==> s[k] == t[k]
    ensures SkipColons(s, p) == SkipColons(t, p) && TokenEnd(s, p) == TokenEnd(t, p)
    decreases |t| - p
  {
    if p < |t| {
      SameSuffixSkips(s, t, p + 1);
    }
  }

  /** The part of the buffer from `st` on is still the text, with its terminating zero. */
  ghost predicate Untouched(b: seq<char>, t: string, st: nat) {
    |b| == |t| + 1 && b[|t|] == '\0' && st <= |t| && forall k :: st <= k < |t| ==> b[k] == t[k] != '\0'
  }

  lemma ListMeans(t: string, p: nat, n: nat, tok: nat)
    requires p <= |t|
    ensures n > 0 ==> ConsoleList(t, p, n, tok) == ConsoleCards(t, p, n, [])
    ensures n == 0 ==> ConsoleList(t, p, n, tok) == EndOfList(t, tok, [])
  {
  }

  lemma UntouchedBound(b: seq<char>, t: string, st: nat)
    requires Untouched(b, t, st)
    ensures st <= |t|
  {
  }

  /** Cutting the next token out of the buffer is cutting it out of the text. */
  lemma TokenIsInText(b: seq<char>, t: string, st: nat)
    requires Untouched(b, t, st)
    ensures |b| == |t| + 1 && st <= |t| && b[|t|] == '\0' && forall k :: st <= k < |t| ==> b[k] != '\0'
    ensures SkipColons(b[..|t|], st) == SkipColons(t, st)
    ensures TokenEnd(b[..|t|], SkipColons(t, st)) == TokenEnd(t, SkipColons(t, st))
    ensures var q := SkipColons(t, st);
      var e := TokenEnd(t, q);
      TextAt(b[e := '\0'], q) == Slice(t, q, e) && Untouched(b[e := '\0'], t, Min(e + 1, |t|))
    ensures TextAt(b, st) == Rest(t, st)
  {
    var q := SkipColons(t, st);
    var e := TokenEnd(t, q);
    SameSuffixSkips(b[..|t|], t, st);
    SameSuffixSkips(b[..|t|], t, q);
    TextUpTo(b[e := '\0'], t, q, e);
    TextUpTo(b, t, st, |t|);
    assert t[st..|t|] == t[st..];
  }

  /** One call of the tokenizer, seen from the text: `ret` is the next token of `t` after `from`. */
  method CutToken(buf: array<char>, str: int, nextp: nat, ghost t: string) returns (ret: int, next: nat)
    requires -1 <= str && Untouched(buf[..], t, if str == -1 then nextp else str)
    modifies buf
    ensures var q := SkipColons(t, if str == -1 then nextp else str);
      var e := TokenEnd(t, q);
      if q == |t| then ret == -1
      else ret == q && next == Min(e + 1, |t|) && TextAt(buf[..], q) == Slice(t, q, e) && Untouched(buf[..], t, next)
  {
    TokenIsInText(buf[..], t, if str == -1 then nextp else str);
    hide Untouched, SkipColons, TokenEnd, TextAt;
    ret, next := WcstokR(buf, str, nextp, |t|);
  }

  /** `wcscpy` into a new buffer. */
  method CopyString(str: string) returns (strBuf: array<char>)
    requires '\0' !in str
    ensures fresh(strBuf) && Untouched(strBuf[..], str, 0)
  {
    strBuf := new char[|str| + 1];
    forall i | 0 <= i < |str| {
      strBuf[i] := str[i];
    }
    strBuf[|str|] := '\0';
    assert forall k :: 0 <= k < |str| ==> str[k] in str;
  }

  method OutputCards(str: string) returns (r: Outcome)
    requires CARDS_PREFIX <= str && '\0' !in str
    ensures r == ConsoleParse(str)
  {
    var strBuf := CopyString(str);
    PrefixToken(str);
    hide Untouched, SkipColons, TokenEnd, TextAt, ConsoleCount;
    var tok, st := CutToken(strBuf, 0, 0, str);
    r := OutputCardCount(str, strBuf, st);
  }

  /** What follows the first token. */
  method OutputCardCount(str: string, strBuf: array<char>, st0: nat) returns (r: Outcome)
    requires Untouched(strBuf[..], str, st0) && st0 <= |str|
    modifies strBuf
    ensures r == ConsoleCount(str, st0)
  {
    hide *;
    CountMeans(str, st0);
    var tok, st := CutToken(strBuf, -1, st0, str);
    if tok == -1 {
      return Refused;
    }
    var number := ScanUnsigned(TextAt(strBuf[..], tok));
    if number.None? {
      return Refused;
    }
    r := OutputCardList(str, strBuf, number.value, tok, st);
  }

  /** The step of the loop for one card: its token, its value and what is left. */
  method OneCard(str: string, strBuf: array<char>, last: bool, st: nat)
      returns (tok: nat, next: nat, card: Option<Shown>)
    requires Untouched(strBuf[..], str, st)
    modifies strBuf
    ensures card.Some? ==> Untouched(strBuf[..], str, next) && next <= |str|
    ensures card == CardThere(str, st, last)
    ensures last ==> tok == st
    ensures !last && card.Some? ==> next == Min(TokenEnd(str, SkipColons(str, st)) + 1, |str|)
    ensures card.Some? && last ==> tok + 3 <= |str|
  {
    hide *;
    UntouchedBound(strBuf[..], str, st);
    TokenIsInText(strBuf[..], str, st);
    CardThereMeans(str, st);
    next := st;
    if !last {
      var token;
      token, next := CutToken(strBuf, -1, st, str);
      if token == -1 {
        return 0, next, None;
      }
      tok := token;
    } else {
      tok := st;
    }
    card := ScanCard(TextAt(strBuf[..], tok));
    if card.Some? {
      ScannedLength(TextAt(strBuf[..], tok));
    }
  }

  /** The loop over the cards, once their number is known. */
  method OutputCardList(str: string, strBuf: array<char>, cardNumber: nat, tok0: nat, st0: nat) returns (r: Outcome)
    requires Untouched(strBuf[..], str, st0)
    modifies strBuf
    ensures r == ConsoleList(str, st0, cardNumber, tok0)
  {
    hide *;
    UntouchedBound(strBuf[..], str, st0);
    ListMeans(str, st0, cardNumber, tok0);
    ghost var all := ConsoleList(str, st0, cardNumber, tok0);
    var tok: nat, st: nat := tok0, st0;
    var cards: seq<Shown> := [];
    for i := 0 to cardNumber
      invariant st <= |str| && Untouched(strBuf[..], str, st)
      invariant i < cardNumber ==> ConsoleCards(str, st, cardNumber - i, cards) == all
      invariant i == cardNumber ==> all == EndOfList(str, tok, cards)
    {
      ConsoleStep(str, st, cardNumber - i, cards);
      var card;
      tok, st, card := OneCard(str, strBuf, i == cardNumber - 1, st);
      if card.None? {
        return Refused;
      }
      cards := cards + [card.value];
    }
    r := EndOfList(str, tok, cards);
  }

  /** The card that starts at `p`: the last one is scanned out of the whole rest, the others out of their token. */
  function CardThere(t: string, p: nat, last: bool): Option<Shown>
    requires p <= |t|
  {
    if last then ScanCard(Rest(t, p))
    else if SkipColons(t, p) == |t| then None
    else ScanCard(Slice(t, SkipColons(t, p), TokenEnd(t, SkipColons(t, p))))
  }

  lemma CardThereMeans(t: string, p: nat)
    requires p <= |t|
    ensures CardThere(t, p, true) == ScanCard(Rest(t, p))
    ensures var q := SkipColons(t, p);
      CardThere(t, p, false) == if q == |t| then None else ScanCard(Slice(t, q, TokenEnd(t, q)))
    ensures |Rest(t, p)| == |t| - p && Min(TokenEnd(t, SkipColons(t, p)) + 1, |t|) <= |t|
  {
    hide ScanCard, SkipColons, TokenEnd, Slice;
  }

  /** What one more card means for the rest of the list. */
  lemma ConsoleStep(t: string, p: nat, n: nat, shown: seq<Shown>)
    requires p <= |t| && n > 0
    ensures var card := CardThere(t, p, n == 1);
      ConsoleCards(t, p, n, shown) ==
        if card.None? then Refused
        else if n == 1 then EndOfList(t, p, shown + [card.value])
        else ConsoleCards(t, Min(TokenEnd(t, SkipColons(t, p)) + 1, |t|), n - 1, shown + [card.value])
  {
    hide ScanCard, SkipColons, TokenEnd, Slice, Rest, EndOfList, Min;
  }

  /** What the token with the number means for the whole message. */
  lemma CountMeans(t: string, p: nat)
    requires p <= |t|
    ensures var q := SkipColons(t, p);
      var e := TokenEnd(t, q);
      var number := ScanUnsigned(Slice(t, q, e));
      ConsoleCount(t, p) ==
        if q == |t| || number.None? then Refused else ConsoleList(t, Min(e + 1, |t|), number.value, q)
  {
    hide SkipColons, TokenEnd, ScanUnsigned, Slice, ConsoleList, Min;
  }

  lemma ScannedLength(s: string)
    requires ScanCard(s).Some?
    ensures |s| >= 3
  {
  }

  lemma PrefixToken(t: string)
    requires CARDS_PREFIX <= t
    ensures SkipColons(t, 0) == 0 && TokenEnd(t, 0) == 5
  {
    assert t[0] == 'C' && t[1] == 'A' && t[2] == 'R' && t[3] == 'D' && t[4] == 'S' && t[5] == ':';
    assert TokenEnd(t, 4) == TokenEnd(t, 5) == 5;
    assert TokenEnd(t, 2) == TokenEnd(t, 3) == TokenEnd(t, 4);
    assert TokenEnd(t, 0) == TokenEnd(t, 1) == TokenEnd(t, 2);
  }

  // ----- both clients read what the server writes ---------------------------------------------------

  /** The first `k` cards as the clients show them. */
  function FirstViews(cards: seq<Card>, k: nat): seq<Shown>
    requires k <= |cards|
  {
    if k == 0 then [] else FirstViews(cards, k - 1) + [View(cards[k - 1])]
  }

  function Views(cards: seq<Card>): seq<Shown> { FirstViews(cards, |cards|) }

  /** One view for each card, in the order of the cards. */
  lemma {:induction false} ViewOfEach(cards: seq<Card>, k: nat)
    requires k <= |cards|
    ensures |FirstViews(cards, k)| == k && forall i :: 0 <= i < k ==> FirstViews(cards, k)[i] == View(cards[i])
  {
    if k > 0 {
      ViewOfEach(cards, k - 1);
    }
  }

  /** The four characters of each card stand where they should. */
  ghost predicate CardsAt(t: string, h: nat, cards: seq<Card>) {
    h + 4 * |cards| <= |t| &&
    forall k :: 0 <= k < |cards| ==> t[h + 4 * k..h + 4 * k + 4] == CardText(cards[k])
  }

  lemma {:induction false} MessageHasCards(head: string, cards: seq<Card>, m: string)
    ensures CardsAt(head + CardTexts(cards) + m, |head|, cards)
  {
    if cards != [] {
      var init, last := cards[..|cards| - 1], cards[|cards| - 1];
      MessageHasCards(head, init, CardText(last) + m);
      assert head + CardTexts(cards) + m == head + CardTexts(init) + (CardText(last) + m);
    }
  }

  /** The three symbols of a card. */
  ghost predicate SymbolsAt(t: string, p: nat, c: Card) {
    p + 3 <= |t| && IsDigit(t[p]) && Digit(t[p]) == SuitOf(c) && t[p + 1] == ',' && t[p + 2] == VALUES[RankOf(c)] != ':'
  }

  lemma CardSymbols(t: string, h: nat, cards: seq<Card>, k: nat)
    requires CardsAt(t, h, cards) && k < |cards|
    ensures h + 4 * k + 4 <= |t| && t[h + 4 * k] == ':' && SymbolsAt(t, h + 4 * k + 1, cards[k])
  {
    var p := h + 4 * k;
    var s := t[p..p + 4];
    assert s == CardText(cards[k]);
    assert s[0] == t[p] && s[1] == t[p + 1] && s[2] == t[p + 2] && s[3] == t[p + 3];
    assert forall d :: 0 <= d < 4 ==> IsDigit(DIGITS[d]) && Digit(DIGITS[d]) == d;
    assert forall r :: 0 <= r < |VALUES| ==> VALUES[r] != ':';
  }

  lemma ViewsGrow(cards: seq<Card>, k: nat)
    requires k < |cards|
    ensures FirstViews(cards, k) + [View(cards[k])] ==
      if k + 1 == |cards| then Views(cards) else FirstViews(cards, k + 1)
  {
    hide View;
  }

  /** What one more card means for the rest of the list. */
  lemma WebStep(t: string, i: nat, n: nat, shown: seq<Shown>, c: Card)
    requires SymbolsAt(t, i, c) && n > 0 && (n > 1 ==> i + 3 < |t| && t[i + 3] == ':')
    ensures WebCards(t, i, n, shown) ==
      if n == 1 then Shows(shown + [View(c)], Rest(t, i + 3)) else WebCards(t, i + 4, n - 1, shown + [View(c)])
  {
    assert Slice(t, i + 2, i + 3) == View(c).symbol;
    hide Slice, Rest;
  }

  lemma {:induction false} WebReadsCards(t: string, h: nat, cards: seq<Card>, k: nat)
    requires CardsAt(t, h, cards) && k < |cards|
    ensures WebCards(t, h + 4 * k + 1, |cards| - k, FirstViews(cards, k)) ==
      Shows(Views(cards), Rest(t, h + 4 * |cards|))
    decreases |cards| - k
  {
    hide *;
    CardSymbols(t, h, cards, k);
    ViewsGrow(cards, k);
    if k + 1 == |cards| {
      WebStep(t, h + 4 * k + 1, 1, FirstViews(cards, k), cards[k]);
    } else {
      CardSymbols(t, h, cards, k + 1);
      WebStep(t, h + 4 * k + 1, |cards| - k, FirstViews(cards, k), cards[k]);
      WebReadsCards(t, h, cards, k + 1);
    }
  }

  lemma {:induction false} ConsoleReadsCards(t: string, h: nat, cards: seq<Card>, k: nat)
    requires CardsAt(t, h, cards) && k < |cards|
    ensures ConsoleCards(t, h + 4 * k + 1, |cards| - k, FirstViews(cards, k)) ==
      Shows(Views(cards), Rest(t, h + 4 * |cards|))
    decreases |cards| - k
  {
    hide *;
    if k + 1 == |cards| {
      ConsoleReadsLast(t, h, cards, k);
    } else {
      ConsoleReadsOne(t, h, cards, k);
      ConsoleReadsCards(t, h, cards, k + 1);
    }
  }

  lemma ConsoleReadsOne(t: string, h: nat, cards: seq<Card>, k: nat)
    requires CardsAt(t, h, cards) && k + 1 < |cards|
    ensures h + 4 * |cards| <= |t|
    ensures ConsoleCards(t, h + 4 * k + 1, |cards| - k, FirstViews(cards, k)) ==
      ConsoleCards(t, h + 4 * (k + 1) + 1, |cards| - (k + 1), FirstViews(cards, k + 1))
  {
    hide *;
    ViewsGrow(cards, k);
    MinIsLowerBound(h + 4 * k + 5, |t|);
    CardSymbols(t, h, cards, |cards| - 1);
    CardToken(t, h, cards, k);
    ConsoleStep(t, h + 4 * k + 1, |cards| - k, FirstViews(cards, k));
  }

  lemma ConsoleReadsLast(t: string, h: nat, cards: seq<Card>, k: nat)
    requires CardsAt(t, h, cards) && k + 1 == |cards|
    ensures h + 4 * |cards| <= |t|
    ensures ConsoleCards(t, h + 4 * k + 1, 1, FirstViews(cards, k)) == Shows(Views(cards), Rest(t, h + 4 * |cards|))
  {
    hide *;
    ViewsGrow(cards, k);
    LastCard(t, h, cards, k);
    ConsoleStep(t, h + 4 * k + 1, 1, FirstViews(cards, k));
    EndAtCard(t, h + 4 * k + 1, Views(cards));
  }

  lemma EndAtCard(t: string, p: nat, shown: seq<Shown>)
    requires p + 3 <= |t|
    ensures EndOfList(t, p, shown) == Shows(shown, Rest(t, p + 3))
  {
  }

  /** The tokenizer finds each card behind its colon. */
  lemma CardToken(t: string, h: nat, cards: seq<Card>, k: nat)
    requires CardsAt(t, h, cards) && k + 1 < |cards|
    ensures var p := h + 4 * k + 1;
      p + 4 <= |t| && CardThere(t, p, false) == Some(View(cards[k])) && TokenEnd(t, SkipColons(t, p)) == p + 3
  {
    CardSymbols(t, h, cards, k);
    CardSymbols(t, h, cards, k + 1);
    hide *;
    TokenCard(t, h + 4 * k + 1, cards[k]);
  }

  lemma TokenCard(t: string, p: nat, c: Card)
    requires p + 3 < |t| && t[p + 3] == ':' && SymbolsAt(t, p, c)
    ensures CardThere(t, p, false) == Some(View(c)) && TokenEnd(t, SkipColons(t, p)) == p + 3
  {
    ThreeSymbolToken(t, p);
    ScanView(t, p, p + 3, c);
    assert SkipColons(t, p) == p;
    hide View, ScanCard, Slice, TokenEnd, SkipColons;
  }

  lemma LastCard(t: string, h: nat, cards: seq<Card>, k: nat)
    requires CardsAt(t, h, cards) && k < |cards|
    ensures var p := h + 4 * k + 1;
      p + 3 <= |t| && CardThere(t, p, true) == Some(View(cards[k]))
  {
    var p := h + 4 * k + 1;
    CardSymbols(t, h, cards, k);
    assert Slice(t, p, |t|) == Rest(t, p);
    hide CardsAt, View, ScanCard, Slice, Rest;
    ScanView(t, p, |t|, cards[k]);
  }

  lemma ThreeSymbolToken(t: string, p: nat)
    requires p + 3 < |t| && t[p] != ':' && t[p + 1] != ':' && t[p + 2] != ':' && t[p + 3] == ':'
    ensures TokenEnd(t, p) == p + 3
  {
    assert TokenEnd(t, p + 2) == TokenEnd(t, p + 3) == p + 3;
    assert TokenEnd(t, p) == TokenEnd(t, p + 1) == TokenEnd(t, p + 2);
  }

  lemma ScanView(t: string, p: nat, e: nat, c: Card)
    requires p + 3 <= e <= |t| && SymbolsAt(t, p, c)
    ensures ScanCard(Slice(t, p, e)) == Some(View(c))
  {
    var s := t[p..e];
    assert s[0] == t[p] && s[1] == t[p + 1] && s[2] == t[p + 2];
    OneDigit(s);
    PlainNumber(s);
    hide ScanUnsigned, UnsignedLength, ScanNumber, DigitCount;
  }

  lemma OneDigit(s: string)
    requires |s| >= 2 && IsDigit(s[0]) && !IsDigit(s[1])
    ensures DigitCount(s) == 1 && ScanNumber(s) == Some(Digit(s[0]))
  {
    DigitsEndAt(s, 1);
    assert s[..1] == [s[0]];
    assert Value([s[0]]) == Digit(s[0]) by {
      assert [s[0]][..0] == [];
    }
  }

  lemma {:induction false} ColonAt(t: string, p: nat, e: nat)
    requires p <= e < |t| && t[e] == ':' && forall k :: p <= k < e ==> t[k] != ':'
    ensures TokenEnd(t, p) == e && IndexOf(t, ':', p) == e
    decreases e - p
  {
    if p < e {
      ColonAt(t, p + 1, e);
    }
  }

  /** The number is read the same from any slice that reaches its colon. */
  lemma NumberScan(t: string, i: nat, n: nat, f: nat)
    requires var e := i + |Decimal(n)|;
      e <= f <= |t| && Slice(t, i, e) == Decimal(n) && (e < f ==> t[e] == ':')
    ensures ScanUnsigned(Slice(t, i, f)) == Some(n) && ParseInt(Slice(t, i, f)) == Some(n)
  {
    var e := i + |Decimal(n)|;
    hide ScanUnsigned, ParseInt, Decimal;
    var rest := t[e..f];
    assert t[i..f] == t[i..e] + rest;
    DecimalIsPlain(n, rest);
  }

  /** The colon behind the number is the first one. */
  lemma NumberColon(t: string, i: nat, n: nat)
    requires var e := i + |Decimal(n)|;
      e < |t| && Slice(t, i, e) == Decimal(n) && t[e] == ':'
    ensures var e := i + |Decimal(n)|;
      SkipColons(t, i) == i && TokenEnd(t, i) == e && IndexOf(t, ':', i) == e
  {
    var d := Decimal(n);
    var e := i + |d|;
    hide Decimal, TokenEnd, IndexOf;
    DecimalIsDigits(n);
    forall k | i <= k < e
      ensures t[k] != ':'
    {
      assert t[i..e][k - i] == t[k];
      assert IsDigit(d[k - i]);
    }
    ColonAt(t, i, e);
  }

  /** From index `a` on: the number of cards, the cards and the text `m`. */
  ghost predicate Laid(t: string, a: nat, cards: seq<Card>, m: string) {
    var h := a + |Decimal(|cards|)|;
    h < |t| && Slice(t, a, h) == Decimal(|cards|) && t[h] == ':' && CardsAt(t, h, cards) &&
    Rest(t, h + 4 * |cards|) == m
  }

  lemma LaidParts(t: string, a: nat, h: nat, cards: seq<Card>, m: string)
    requires h == a + |Decimal(|cards|)|
    ensures Laid(t, a, cards, m) <==>
      h < |t| && Slice(t, a, h) == Decimal(|cards|) && t[h] == ':' && CardsAt(t, h, cards) &&
      Rest(t, h + 4 * |cards|) == m
  {
    hide Decimal, CardsAt, Slice, Rest;
  }

  lemma WebStart(t: string, a: nat, h: nat, cards: seq<Card>)
    requires a <= h < |t| && cards != [] && IndexOf(t, ':', a) == h
    requires ParseInt(Slice(t, a, Min(a + h, |t|))) == Some(|cards|)
    ensures WebCount(t, a) == WebCards(t, h + 1, |cards|, FirstViews(cards, 0))
  {
    hide IndexOf, ParseInt, Slice, Rest, WebCards, Min;
  }

  lemma ConsoleStart(t: string, a: nat, h: nat, cards: seq<Card>)
    requires a <= h < |t| && cards != [] && SkipColons(t, a) == a && TokenEnd(t, a) == h
    requires ScanUnsigned(Slice(t, a, h)) == Some(|cards|)
    ensures h + 1 <= |t| && ConsoleCount(t, a) == ConsoleCards(t, h + 1, |cards|, FirstViews(cards, 0))
  {
    hide SkipColons, TokenEnd, ScanUnsigned, Slice, Rest, ConsoleCards, EndOfList;
  }

  lemma WebReads(t: string, a: nat, cards: seq<Card>, m: string)
    requires cards != [] && Laid(t, a, cards, m)
    ensures a <= |t| && WebCount(t, a) == Shows(Views(cards), m)
  {
    hide *;
    var h := a + |Decimal(|cards|)|;
    LaidParts(t, a, h, cards, m);
    NumberColon(t, a, |cards|);
    MinIsLowerBound(a + h, |t|);
    NumberScan(t, a, |cards|, Min(a + h, |t|));
    WebStart(t, a, h, cards);
    WebReadsCards(t, h, cards, 0);
  }

  lemma ConsoleReads(t: string, a: nat, cards: seq<Card>, m: string)
    requires cards != [] && Laid(t, a, cards, m)
    ensures a <= |t| && ConsoleCount(t, a) == Shows(Views(cards), m)
  {
    hide *;
    var h := a + |Decimal(|cards|)|;
    LaidParts(t, a, h, cards, m);
    NumberColon(t, a, |cards|);
    NumberScan(t, a, |cards|, h);
    ConsoleStart(t, a, h, cards);
    ConsoleReadsCards(t, h, cards, 0);
  }

  lemma {:induction false} IndexIsHit(t: string, c: char, from: nat)
    requires from <= |t| && IndexOf(t, c, from) != -1
    ensures t[IndexOf(t, c, from)] == c
    decreases |t| - from
  {
    if t[from] != c {
      IndexIsHit(t, c, from + 1);
    }
  }

  /** No cards, and a text of `n` symbols. */
  predicate OnlyText(o: Outcome, n: nat) { o.Shows? && o.cards == [] && |o.text| == n }

  lemma {:induction false} WebShowsSome(t: string, i: nat, n: nat, shown: seq<Shown>, k: nat)
    requires n > 0
    ensures !OnlyText(WebCards(t, i, n, shown), k)
    decreases n
  {
    hide Slice, Rest, IsDigit, Digit;
    if n > 1 && WebCards(t, i, n, shown) != Refused {
      WebShowsSome(t, i + 4, n - 1, shown + [Shown(Digit(t[i]), Slice(t, i + 2, i + 3))], k);
    }
  }

  lemma {:induction false} ConsoleShowsSome(t: string, p: nat, n: nat, shown: seq<Shown>, k: nat)
    requires p <= |t| && n > 0
    ensures !OnlyText(ConsoleCards(t, p, n, shown), k)
    decreases n
  {
    ConsoleStep(t, p, n, shown);
    var card := CardThere(t, p, n == 1);
    hide SkipColons, TokenEnd, CardThere, ConsoleCards, Rest;
    if n > 1 && card.Some? {
      ConsoleShowsSome(t, Min(TokenEnd(t, SkipColons(t, p)) + 1, |t|), n - 1, shown + [card.value], k);
    }
  }

  lemma RefusedIsNoText(n: nat)
    ensures !OnlyText(Refused, n)
  {
  }

  lemma ShortText(t: string, p: nat, n: nat)
    requires n + p > |t| && n > 0
    ensures !OnlyText(WebFinish(t, p, [], true), n)
  {
  }

  lemma ShortEnd(t: string, a: nat)
    requires a < |t|
    ensures !OnlyText(EndOfList(t, a, []), |t| - a - 1)
  {
  }

  lemma WebCountMeans(t: string, a: nat, j: int, number: Option<int>)
    requires a <= |t| && j == IndexOf(t, ':', a) && (j != -1 ==> number == ParseInt(Slice(t, a, Min(a + j, |t|))))
    ensures WebCount(t, a) == if j == -1 || number.None? then Refused
      else if number.value <= 0 then WebFinish(t, j + 1, [], true) else WebCards(t, j + 1, number.value, [])
  {
    hide IndexOf, Rest, Slice, ParseInt, WebCards, Min;
  }

  /** What shows no cards has lost some of the text behind its number. */
  lemma WebLosesText(t: string, a: nat)
    requires a < |t| && t[a] != ':'
    ensures !OnlyText(WebCount(t, a), |t| - a - 1)
  {
    hide *;
    var j := IndexOf(t, ':', a);
    if j == -1 {
      WebCountMeans(t, a, j, None);
      RefusedIsNoText(|t| - a - 1);
    } else {
      IndexIsHit(t, ':', a);
      WebFoundLosesText(t, a, j, ParseInt(Slice(t, a, Min(a + j, |t|))));
    }
  }

  lemma WebFoundLosesText(t: string, a: nat, j: nat, number: Option<int>)
    requires a < j < |t| && j == IndexOf(t, ':', a) && number == ParseInt(Slice(t, a, Min(a + j, |t|)))
    ensures !OnlyText(WebCount(t, a), |t| - a - 1)
  {
    hide *;
    var n := |t| - a - 1;
    WebCountMeans(t, a, j, number);
    match number
    case None => RefusedIsNoText(n);
    case Some(k) => if k <= 0 { ShortText(t, j + 1, n); } else { WebShowsSome(t, j + 1, k, [], n); }
  }

  lemma ConsoleLosesText(t: string, a: nat)
    requires a < |t| && t[a] != ':'
    ensures !OnlyText(ConsoleCount(t, a), |t| - a - 1)
  {
    assert SkipColons(t, a) == a;
    ConsoleFoundLosesText(t, a, TokenEnd(t, a), ScanUnsigned(Slice(t, a, TokenEnd(t, a))));
    hide *;
  }

  lemma ConsoleFoundLosesText(t: string, a: nat, e: nat, number: Option<nat>)
    requires a < |t| && SkipColons(t, a) == a && e == TokenEnd(t, a) && number == ScanUnsigned(Slice(t, a, e))
    ensures !OnlyText(ConsoleCount(t, a), |t| - a - 1)
  {
    hide *;
    var n := |t| - a - 1;
    CountMeans(t, a);
    MinIsLowerBound(e + 1, |t|);
    match number
    case None => RefusedIsNoText(n);
    case Some(k) =>
      ListMeans(t, Min(e + 1, |t|), k, a);
      if k == 0 { ShortEnd(t, a); } else { ConsoleShowsSome(t, Min(e + 1, |t|), k, [], n); }
  }

  lemma EmptyMessage(m: string)
    ensures var t := Message([]) + m;
      CARDS_PREFIX <= t && |CARDS_PREFIX| < |t| && t[|CARDS_PREFIX|] != ':' && |m| == |t| - |CARDS_PREFIX| - 1
  {
    assert Message([]) == CARDS_PREFIX + "0";
  }

  /**
   * Without cards neither client gives back the text: the web client looks for a colon, the
   * console client skips three symbols.
   */
  lemma ClientsMissEmptyMessage(m: string)
    ensures CARDS_PREFIX <= Message([]) + m
    ensures WebParse(Message([]) + m) != Shows([], m)
    ensures ConsoleParse(Message([]) + m) != Shows([], m)
  {
    var t := Message([]) + m;
    EmptyMessage(m);
    hide Message, WebCount, ConsoleCount;
    WebLosesText(t, |CARDS_PREFIX|);
    ConsoleLosesText(t, |CARDS_PREFIX|);
    assert OnlyText(Shows([], m), |m|);
  }

  /**
   * Each client recovers exactly the cards and the text behind them, whatever the text contains,
   * if and only if there is a card.
   */
  lemma ClientsReadMessage(cards: seq<Card>, m: string)
    ensures CARDS_PREFIX <= Message(cards) + m
    ensures WebParse(Message(cards) + m) == Shows(Views(cards), m) <==> cards != []
    ensures ConsoleParse(Message(cards) + m) == Shows(Views(cards), m) <==> cards != []
  {
    if cards == [] {
      ClientsMissEmptyMessage(m);
      assert Views([]) == [];
    } else {
      var t := Message(cards) + m;
      MessageLayout(cards, m);
      hide Message, Laid, WebCount, ConsoleCount;
      WebReads(t, |CARDS_PREFIX|, cards, m);
      ConsoleReads(t, |CARDS_PREFIX|, cards, m);
    }
  }

  lemma MessageLayout(cards: seq<Card>, m: string)
    requires cards != []
    ensures CARDS_PREFIX <= Message(cards) + m
    ensures Laid(Message(cards) + m, |CARDS_PREFIX|, cards, m)
  {
    var t := CARDS_PREFIX + Decimal(|cards|) + CardTexts(cards) + m;
    assert Message(cards) + m == t;
    hide *;
    Prefixed(CARDS_PREFIX, Decimal(|cards|), CardTexts(cards), m);
    PartsLaid(t, CARDS_PREFIX, cards, m);
  }

  lemma Prefixed(a: string, b: string, c: string, d: string)
    ensures a <= a + b + c + d
  {
  }

  lemma PartsLaid(t: string, p: string, cards: seq<Card>, m: string)
    requires cards != [] && t == p + Decimal(|cards|) + CardTexts(cards) + m
    ensures Laid(t, |p|, cards, m)
  {
    hide *;
    var d := Decimal(|cards|);
    var h := |p + d|;
    assert CardsAt(t, h, cards) by {
      MessageHasCards(p + d, cards, m);
    }
    assert Slice(t, |p|, h) == d && Rest(t, h + 4 * |cards|) == m by {
      Slices(t, p, d, CardTexts(cards), m);
    }
    FirstColon(t, h, cards);
    LaidParts(t, |p|, h, cards, m);
  }

  lemma FirstColon(t: string, h: nat, cards: seq<Card>)
    requires CardsAt(t, h, cards) && cards != []
    ensures h < |t| && t[h] == ':'
  {
    CardSymbols(t, h, cards, 0);
  }

  lemma Slices(t: string, a: string, b: string, c: string, d: string)
    requires t == a + b + c + d
    ensures Slice(t, |a|, |a| + |b|) == b && Rest(t, |a| + |b| + |c|) == d
  {
  }
}
