// TOML values as the settings writer prints them, and a reader for what it prints.
module TomlValues {
  import opened Wrappers

  // A Python dict keeps the order of its entries; its keys are distinct.
  datatype Value =
    | Str(text: string)
    | Bool(flag: bool)
    | Int(number: int)
    | List(items: seq<Value>)
    | Table(entries: seq<Entry>)

  datatype Entry = Entry(key: string, value: Value)

  // What a document means: tables are maps.
  datatype Tree =
    | StrLeaf(text: string)
    | BoolLeaf(flag: bool)
    | IntLeaf(number: int)
    | Array(items: seq<Tree>)
    | Node(children: map<string, Tree>)

  // Control characters that TOML allows nowhere but in escapes. Tab is not one of them.
  predicate Control(c: char) { (c < ' ' && c != '\t') || c == '\U{7F}' }

  // ------------------------------------------------------------------------- escapes

  // str.replace of a character by a backslash and a letter.
  function Replace(s: string, c: char, letter: char): string {
    if |s| == 0 then "" else Piece(s[0], c, letter) + Replace(s[1..], c, letter)
  }

  function Piece(x: char, c: char, letter: char): string { if x == c then ['\\', letter] else [x] }

  // The chains of replacements, for values and for keys.
  function EscapeValue(s: string): string {
    Replace(Replace(Replace(Replace(Replace(s, '\\', '\\'), '"', '"'), '\n', 'n'), '\t', 't'), '\r', 'r')
  }

  function EscapeKey(s: string): string { Replace(Replace(s, '\\', '\\'), '"', '"') }

  // One character at a time instead.
  function Escaped(c: char, inKey: bool): string {
    if c == '\\' then ['\\', '\\']
    else if c == '"' then ['\\', '"']
    else if !inKey && c == '\n' then ['\\', 'n']
    else if !inKey && c == '\t' then ['\\', 't']
    else if !inKey && c == '\r' then ['\\', 'r']
    else [c]
  }

  function OnePass(s: string, inKey: bool): string {
    if |s| == 0 then "" else Escaped(s[0], inKey) + OnePass(s[1..], inKey)
  }

  lemma {:induction false} ReplaceConcat(a: string, b: string, c: char, letter: char)
    ensures Replace(a + b, c, letter) == Replace(a, c, letter) + Replace(b, c, letter)
  {
    if |a| == 0 {
      assert a + b == b;
    } else {
      assert (a + b)[1..] == a[1..] + b;
      ReplaceConcat(a[1..], b, c, letter);
      assert Piece(a[0], c, letter) + (Replace(a[1..], c, letter) + Replace(b, c, letter))
          == (Piece(a[0], c, letter) + Replace(a[1..], c, letter)) + Replace(b, c, letter);
    }
  }

  lemma ReplaceShort(x: char, y: char, c: char, letter: char)
    ensures Replace([x], c, letter) == Piece(x, c, letter)
    ensures Replace([x, y], c, letter) == Piece(x, c, letter) + Piece(y, c, letter)
  {
    assert [x][1..] == "" && [x, y][1..] == [y] && [y][1..] == "";
    assert Replace([y], c, letter) == Piece(y, c, letter);
  }

  lemma EscapeConcat(a: string, b: string)
    ensures EscapeValue(a + b) == EscapeValue(a) + EscapeValue(b)
    ensures EscapeKey(a + b) == EscapeKey(a) + EscapeKey(b)
  {
    hide Replace;
    var a1, b1 := Replace(a, '\\', '\\'), Replace(b, '\\', '\\');
    ReplaceConcat(a, b, '\\', '\\');
    var a2, b2 := Replace(a1, '"', '"'), Replace(b1, '"', '"');
    ReplaceConcat(a1, b1, '"', '"');
    var a3, b3 := Replace(a2, '\n', 'n'), Replace(b2, '\n', 'n');
    ReplaceConcat(a2, b2, '\n', 'n');
    ReplaceConcat(a3, b3, '\t', 't');
    ReplaceConcat(Replace(a3, '\t', 't'), Replace(b3, '\t', 't'), '\r', 'r');
  }

  // A piece that no later replacement touches.
  lemma Untouched(x: char, y: char, c: char, letter: char)
    requires x != c && y != c
    ensures Replace([x], c, letter) == [x] && Replace([x, y], c, letter) == [x, y]
  {
    ReplaceShort(x, y, c, letter);
  }

  lemma EscapeOne(x: char)
    ensures EscapeValue([x]) == Escaped(x, false) && EscapeKey([x]) == Escaped(x, true)
  {
    hide Replace;
    ReplaceShort(x, x, '\\', '\\');
    if x == '\\' {
      Untouched('\\', '\\', '"', '"');
      Untouched('\\', '\\', '\n', 'n');
      Untouched('\\', '\\', '\t', 't');
      Untouched('\\', '\\', '\r', 'r');
    } else {
      ReplaceShort(x, x, '"', '"');
      ReplaceShort(x, x, '\n', 'n');
      ReplaceShort(x, x, '\t', 't');
      ReplaceShort(x, x, '\r', 'r');
      Untouched('\\', '"', '\n', 'n');
      Untouched('\\', '"', '\t', 't');
      Untouched('\\', '"', '\r', 'r');
      Untouched('\\', 'n', '\t', 't');
      Untouched('\\', 'n', '\r', 'r');
      Untouched('\\', 't', '\r', 'r');
    }
  }

  lemma EscapeNothing()
    ensures EscapeValue("") == "" && EscapeKey("") == ""
  {
  }

  // The chains amount to escaping each character once.
  lemma {:induction false} ChainIsOnePass(s: string)
    ensures EscapeValue(s) == OnePass(s, false)
    ensures EscapeKey(s) == OnePass(s, true)
  {
    hide EscapeValue, EscapeKey, Escaped;
    if |s| == 0 {
      EscapeNothing();
    } else {
      assert s == [s[0]] + s[1..];
      EscapeConcat([s[0]], s[1..]);
      EscapeOne(s[0]);
      ChainIsOnePass(s[1..]);
    }
  }

  // --------------------------------------------------------------------- quoted strings

  datatype Parsed<T> = Ok(value: T, rest: string) | Bad

  function Prepend(c: char, p: Parsed<string>): Parsed<string> {
    match p
    case Ok(text, rest) => Ok([c] + text, rest)
    case Bad => Bad
  }

  function Unescape(letter: char): Option<char> {
    if letter == '\\' || letter == '"' then Some(letter)
    else if letter == 'n' then Some('\n')
    else if letter == 't' then Some('\t')
    else if letter == 'r' then Some('\r')
    else None
  }

  // The rest of a string whose opening quote has been read.
  function ReadChars(s: string): (p: Parsed<string>)
    ensures p.Ok? ==> |p.rest| < |s|
  {
    if |s| == 0 then Bad
    else if s[0] == '"' then Ok("", s[1..])
    else if s[0] == '\\' then
      if |s| == 1 || Unescape(s[1]).None? then Bad
      else Prepend(Unescape(s[1]).value, ReadChars(s[2..]))
    else if Control(s[0]) then Bad
    else Prepend(s[0], ReadChars(s[1..]))
  }

  // Text that survives: in keys no control character but tab, in values also newline and CR.
  predicate CleanChar(c: char, inKey: bool) { !Control(c) || (!inKey && (c == '\n' || c == '\r')) }

  predicate CleanText(s: string, inKey: bool) { forall i :: 0 <= i < |s| ==> CleanChar(s[i], inKey) }

  lemma ReadEscapedChar(c: char, inKey: bool, r: string)
    ensures ReadChars(Escaped(c, inKey) + r) == if CleanChar(c, inKey) then Prepend(c, ReadChars(r)) else Bad
  {
    var s := Escaped(c, inKey) + r;
    if |Escaped(c, inKey)| == 1 {
      assert s[1..] == r;
    } else {
      assert s[2..] == r;
    }
  }

  lemma ReadQuote(r: string)
    ensures ReadChars(['"'] + r) == Ok("", r)
  {
    assert (['"'] + r)[1..] == r;
  }

  // Reading is the inverse of escaping on clean text and fails on any other.
  lemma {:induction false} EscapedRoundTrip(s: string, inKey: bool, r: string)
    ensures ReadChars(OnePass(s, inKey) + (['"'] + r)) == if CleanText(s, inKey) then Ok(s, r) else Bad
  {
    hide ReadChars, Escaped, CleanChar;
    if |s| == 0 {
      assert OnePass(s, inKey) + (['"'] + r) == ['"'] + r;
      ReadQuote(r);
    } else {
      var more := OnePass(s[1..], inKey) + (['"'] + r);
      assert OnePass(s, inKey) + (['"'] + r) == Escaped(s[0], inKey) + more;
      ReadEscapedChar(s[0], inKey, more);
      EscapedRoundTrip(s[1..], inKey, r);
      assert s == [s[0]] + s[1..];
      CleanSplit(s, inKey);
    }
  }

  lemma CleanSplit(s: string, inKey: bool)
    requires |s| > 0
    ensures CleanText(s, inKey) <==> CleanChar(s[0], inKey) && CleanText(s[1..], inKey)
  {
    hide CleanChar;
    if CleanChar(s[0], inKey) && CleanText(s[1..], inKey) {
      forall i | 0 <= i < |s| ensures CleanChar(s[i], inKey) {
        assert i > 0 ==> s[i] == s[1..][i - 1];
      }
    }
  }

  // --------------------------------------------------------------------------- keys

  predicate BareChar(c: char) { 'A' <= c <= 'Z' || 'a' <= c <= 'z' || '0' <= c <= '9' || c == '_' || c == '-' }

  predicate Bare(s: string) { |s| > 0 && forall i :: 0 <= i < |s| ==> BareChar(s[i]) }

  // ^[A-Za-z0-9_-]+$ as Python matches it: the $ also matches before a newline at the end.
  predicate BareMatch(key: string) {
    Bare(key) || (|key| > 0 && key[|key| - 1] == '\n' && Bare(key[..|key| - 1]))
  }

  function TomlKey(key: string): string {
    if BareMatch(key) then key else ['"'] + EscapeKey(key) + ['"']
  }

  function BareRun(s: string): (n: nat)
    ensures n <= |s|
  {
    if |s| > 0 && BareChar(s[0]) then 1 + BareRun(s[1..]) else 0
  }

  function ReadKey(s: string): (p: Parsed<string>)
    ensures p.Ok? ==> |p.rest| < |s|
  {
    if |s| > 0 && s[0] == '"' then ReadChars(s[1..])
    else if BareRun(s) == 0 then Bad
    else Ok(s[..BareRun(s)], s[BareRun(s)..])
  }

  lemma {:induction false} BareRunIs(s: string, r: string)
    requires forall i :: 0 <= i < |s| ==> BareChar(s[i])
    requires |r| > 0 && !BareChar(r[0])
    ensures BareRun(s + r) == |s|
  {
    if |s| == 0 {
      assert s + r == r;
    } else {
      assert (s + r)[1..] == s[1..] + r;
      BareRunIs(s[1..], r);
    }
  }

  lemma BareRoundTrip(s: string, r: string)
    requires Bare(s) && |r| > 0 && !BareChar(r[0])
    ensures ReadKey(s + r) == Ok(s, r)
    ensures CleanText(s, true)
  {
    BareRunIs(s, r);
    assert (s + r)[0] == s[0];
    assert (s + r)[..|s|] == s && (s + r)[|s|..] == r;
  }

  lemma QuotedRoundTrip(key: string, r: string)
    ensures ReadKey((['"'] + EscapeKey(key) + ['"']) + r) == if CleanText(key, true) then Ok(key, r) else Bad
  {
    hide ReadChars, EscapeKey, OnePass, CleanText;
    var s := (['"'] + EscapeKey(key) + ['"']) + r;
    assert s[1..] == EscapeKey(key) + (['"'] + r);
    ChainIsOnePass(key);
    EscapedRoundTrip(key, true, r);
  }

  // A clean key is read back; on any other the reader fails or stops before a newline.
  lemma KeyRoundTrip(key: string, r: string)
    requires |r| > 0 && !BareChar(r[0])
    ensures CleanText(key, true) ==> ReadKey(TomlKey(key) + r) == Ok(key, r)
    ensures !CleanText(key, true) ==>
              var p := ReadKey(TomlKey(key) + r); p.Ok? ==> |p.rest| > 0 && p.rest[0] == '\n'
  {
    hide ReadKey, EscapeKey, CleanText, Bare;
    if Bare(key) {
      BareRoundTrip(key, r);
    } else if BareMatch(key) {
      var front := key[..|key| - 1];
      BareRoundTrip(front, ['\n'] + r);
      assert key + r == front + (['\n'] + r);
      NewlineIsUnclean(key);
    } else {
      QuotedRoundTrip(key, r);
    }
  }

  lemma NewlineIsUnclean(key: string)
    requires |key| > 0 && key[|key| - 1] == '\n'
    ensures !CleanText(key, true)
  {
    assert !CleanChar(key[|key| - 1], true);
  }

  // ------------------------------------------------------------------------ integers

  predicate Digit(c: char) { '0' <= c <= '9' }

  function DigitOf(d: nat): char
    requires d < 10
  {
    '0' + d as char
  }

  function DigitValue(c: char): nat
    requires Digit(c)
  {
    (c - '0') as nat
  }

  function Digits(n: nat): (s: string)
    ensures |s| > 0 && (forall i :: 0 <= i < |s| ==> Digit(s[i]))
    ensures n > 0 ==> s[0] != '0'
    ensures n == 0 ==> s == ['0']
  {
    if n < 10 then [DigitOf(n)] else Digits(n / 10) + [DigitOf(n % 10)]
  }

  function ShowInt(i: int): string { if i < 0 then ['-'] + Digits(-i) else Digits(i) }

  function NumberOf(s: string): nat
    requires forall i :: 0 <= i < |s| ==> Digit(s[i])
  {
    if |s| == 0 then 0 else 10 * NumberOf(s[..|s| - 1]) + DigitValue(s[|s| - 1])
  }

  function DigitRun(s: string): (n: nat)
    ensures n <= |s| && forall i :: 0 <= i < n ==> Digit(s[i])
  {
    if |s| > 0 && Digit(s[0]) then 1 + DigitRun(s[1..]) else 0
  }

  // Decimal digits without a superfluous zero in front.
  function ReadNat(s: string): (p: Parsed<nat>)
    ensures p.Ok? ==> |p.rest| < |s|
  {
    var n := DigitRun(s);
    if n == 0 || (n > 1 && s[0] == '0') then Bad else Ok(NumberOf(s[..n]), s[n..])
  }

  function ReadInt(s: string): (p: Parsed<int>)
    ensures p.Ok? ==> |p.rest| < |s|
  {
    if |s| > 0 && s[0] == '-' then
      var p := ReadNat(s[1..]);
      if p.Ok? then Ok(-(p.value as int), p.rest) else Bad
    else
      var p := ReadNat(s);
      if p.Ok? then Ok(p.value as int, p.rest) else Bad
  }

  lemma {:induction false} DigitRunIs(s: string, r: string)
    requires forall i :: 0 <= i < |s| ==> Digit(s[i])
    requires |r| > 0 && !Digit(r[0])
    ensures DigitRun(s + r) == |s|
  {
    if |s| == 0 {
      assert s + r == r;
    } else {
      assert (s + r)[1..] == s[1..] + r;
      DigitRunIs(s[1..], r);
    }
  }

  lemma {:induction false} NumberOfDigits(n: nat)
    ensures NumberOf(Digits(n)) == n
  {
    if n < 10 {
      assert Digits(n)[..0] == "";
    } else {
      NumberOfDigits(n / 10);
      assert Digits(n)[..|Digits(n)| - 1] == Digits(n / 10);
    }
  }

  lemma NatRoundTrip(n: nat, r: string)
    requires |r| > 0 && !Digit(r[0])
    ensures ReadNat(Digits(n) + r) == Ok(n, r)
  {
    hide Digits, NumberOf, DigitRun, Digit;
    var digits := Digits(n);
    DigitRunIs(digits, r);
    NumberOfDigits(n);
    assert (digits + r)[..|digits|] == digits && (digits + r)[|digits|..] == r;
  }

  lemma DigitsStart(n: nat, r: string)
    ensures |Digits(n)| > 0 && Digit(Digits(n)[0]) && (Digits(n) + r)[0] == Digits(n)[0] != '-'
  {
  }

  lemma MinusStart(n: nat, r: string)
    ensures var s := ['-'] + Digits(n); (s + r)[0] == s[0] == '-' && (s + r)[1..] == Digits(n) + r
  {
    hide Digits;
    assert ((['-'] + Digits(n)) + r)[1..] == Digits(n) + r;
  }

  lemma IntRoundTrip(i: int, r: string)
    requires |r| > 0 && !Digit(r[0])
    ensures ReadInt(ShowInt(i) + r) == Ok(i, r)
    ensures |ShowInt(i)| > 0 && (Digit(ShowInt(i)[0]) || ShowInt(i)[0] == '-')
  {
    hide Digits, ReadNat, Digit;
    var n: nat := if i < 0 then -i else i;
    NatRoundTrip(n, r);
    DigitsStart(n, r);
    MinusStart(n, r);
  }
}
