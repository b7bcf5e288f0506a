// Reading and updating the lines of a .env file.
module EnvFile {
  import opened PythonText
  import opened Wrappers

  // --------------------------------------------------------------------- one line

  predicate NameStart(c: char) { 'A' <= c <= 'Z' || 'a' <= c <= 'z' || c == '_' }

  predicate NameChar(c: char) { NameStart(c) || '0' <= c <= '9' }

  predicate IsName(s: string) { |s| > 0 && NameStart(s[0]) && forall i :: 0 <= i < |s| ==> NameChar(s[i]) }

  function NameRun(s: string): (n: nat)
    ensures n <= |s| && (forall i :: 0 <= i < n ==> NameChar(s[i])) && (n < |s| ==> !NameChar(s[n]))
  {
    if |s| > 0 && NameChar(s[0]) then 1 + NameRun(s[1..]) else 0
  }

  // The name before the first equals sign, if the line begins with one.
  function KeyOf(line: string): (r: Option<string>)
    ensures r.Some? ==> |r.value| < |line| && IsName(r.value)
  {
    var n := NameRun(line);
    if n > 0 && NameStart(line[0]) && n < |line| && line[n] == '=' then Some(line[..n]) else None
  }

  predicate LineEnd(c: char) { c == '\r' || c == '\n' }

  function ChopEnd(s: string): (r: string)
    ensures r <= s
    decreases |s|
  {
    if |s| > 0 && LineEnd(s[|s| - 1]) then ChopEnd(s[..|s| - 1]) else s
  }

  function Unquote(s: string): string {
    if |s| >= 2 && s[0] == s[|s| - 1] && (s[0] == '"' || s[0] == '\'') then s[1..|s| - 1] else s
  }

  // The value that a text after the equals sign stands for.
  function Reread(text: string): string { Unquote(Strip(text)) }

  datatype Binding = Binding(key: string, value: string)

  function ParseLine(line: string): Option<Binding> {
    var t := ChopEnd(line);
    var key := KeyOf(t);
    if key.Some? && '\n' !in t[|key.value| + 1..] then Some(Binding(key.value, Reread(t[|key.value| + 1..]))) else None
  }

  type Env = map<string, string>

  function Bind(env: Env, line: string): Env {
    var b := ParseLine(line);
    if b.Some? then env[b.value.key := b.value.value] else env
  }

  // A later line for the same key wins.
  function ParseFrom(env: Env, lines: seq<string>): Env {
    if |lines| == 0 then env else Bind(ParseFrom(env, lines[..|lines| - 1]), lines[|lines| - 1])
  }

  function Parse(lines: seq<string>): Env { ParseFrom(map[], lines) }

  // ------------------------------------------------------------------- updating

  function Rendered(key: string, value: string): string { key + (['='] + (value + ['\n'])) }

  // The last line gets a newline if it has none.
  function Terminated(lines: seq<string>): (r: seq<string>)
    ensures |r| == |lines| && forall i :: 0 <= i < |lines| - 1 ==> r[i] == lines[i]
  {
    if |lines| > 0 && !(|lines[|lines| - 1]| > 0 && LineEnd(lines[|lines| - 1][|lines[|lines| - 1]| - 1]))
    then lines[..|lines| - 1] + [lines[|lines| - 1] + ['\n']]
    else lines
  }

  // The last line that begins with the key.
  function LastOf(lines: seq<string>, key: string): (r: Option<nat>)
    ensures r.Some? ==> r.value < |lines| && KeyOf(lines[r.value]) == Some(key)
    ensures forall i :: (if r.Some? then r.value + 1 else 0) <= i < |lines| ==> KeyOf(lines[i]) != Some(key)
  {
    if |lines| == 0 then None
    else if KeyOf(lines[|lines| - 1]) == Some(key) then Some(|lines| - 1)
    else LastOf(lines[..|lines| - 1], key)
  }

  function Place(lines: seq<string>, at: Option<nat>, line: string): seq<string>
    requires at.Some? ==> at.value < |lines|
  {
    if at.Some? then lines[at.value := line] else lines + [line]
  }

  // Each addition takes the place of the last line for its key, or comes at the end.
  function Updated(lines: seq<string>, adds: seq<Binding>): seq<string> {
    if |adds| == 0 then lines
    else
      var front, b := adds[..|adds| - 1], adds[|adds| - 1];
      var done := Updated(lines, front);
      Place(done, LastOf(done, b.key), Rendered(b.key, b.value))
  }

  function UpdateOf(lines: seq<string>, adds: seq<Binding>): seq<string> { Updated(Terminated(lines), adds) }

  function Override(env: Env, adds: seq<Binding>): Env {
    if |adds| == 0 then env
    else Override(env, adds[..|adds| - 1])[adds[|adds| - 1].key := adds[|adds| - 1].value]
  }

  // A value that a line gives back as it is: on one line, trimmed, and not in quotes.
  predicate Plain(value: string) { '\n' !in value && Reread(value) == value }

  predicate Proper(adds: seq<Binding>) {
    && (forall b :: b in adds ==> IsName(b.key) && Plain(b.value))
    && (forall i, j :: 0 <= i < j < |adds| ==> adds[i].key != adds[j].key)
  }

  // --------------------------------------------------------------------- the lemmas

  lemma {:induction false} NameRunOf(key: string, r: string)
    requires forall i :: 0 <= i < |key| ==> NameChar(key[i])
    requires |r| > 0 && !NameChar(r[0])
    ensures NameRun(key + r) == |key|
    decreases |key|
  {
    if |key| == 0 {
      assert key + r == r;
    } else {
      assert (key + r)[1..] == key[1..] + r;
      NameRunOf(key[1..], r);
    }
  }

  lemma KeyOfRendered(key: string, r: string)
    requires IsName(key)
    ensures KeyOf(key + (['='] + r)) == Some(key)
  {
    hide NameRun;
    NameRunOf(key, ['='] + r);
    assert (key + (['='] + r))[..|key|] == key;
  }

  lemma ChopUnlessEnded(s: string)
    requires |s| == 0 || !LineEnd(s[|s| - 1])
    ensures ChopEnd(s) == s
    ensures ChopEnd(s + ['\n']) == s
  {
    assert (s + ['\n'])[..|s|] == s;
  }

  lemma {:induction false} RstripEnds(s: string)
    ensures Rstrip(s) == s <==> |s| == 0 || !Space(s[|s| - 1])
    ensures |Rstrip(s)| <= |s|
    decreases |s|
  {
    if |s| > 0 && Space(s[|s| - 1]) {
      RstripEnds(s[..|s| - 1]);
    }
  }

  lemma {:induction false} LstripShortens(s: string)
    ensures |Lstrip(s)| <= |s| && (|Lstrip(s)| == |s| ==> Lstrip(s) == s)
    decreases |s|
  {
    if |s| > 0 && Space(s[0]) {
      LstripShortens(s[1..]);
    }
  }

  lemma PlainEnds(value: string)
    requires Plain(value)
    ensures |value| == 0 || !LineEnd(value[|value| - 1])
  {
    hide Space, Rstrip, Lstrip;
    var t := Lstrip(value);
    LstripShortens(value);
    RstripEnds(t);
    LineEndsAreSpace();
  }

  lemma LineEndsAreSpace()
    ensures Space('\r') && Space('\n')
  {
  }

  // A rendered line is parsed to what was rendered.
  lemma RenderedRoundTrip(key: string, value: string)
    requires IsName(key) && Plain(value)
    ensures ParseLine(Rendered(key, value)) == Some(Binding(key, value))
    ensures KeyOf(Rendered(key, value)) == Some(key)
  {
    hide KeyOf, IsName, Reread, ChopEnd;
    var t := key + (['='] + value);
    PlainEnds(value);
    assert Rendered(key, value) == t + ['\n'];
    ChopUnlessEnded(t);
    KeyOfRendered(key, value);
    KeyOfRendered(key, value + ['\n']);
    assert t[|key| + 1..] == value;
  }

  // A line that is parsed begins with its key.
  lemma ParsedKey(line: string)
    requires ParseLine(line).Some?
    ensures KeyOf(line) == Some(ParseLine(line).value.key)
  {
    hide NameRun, Reread;
    var t := ChopEnd(line);
    var key := KeyOf(t).value;
    KeyIsThere(t);
    var r := line[|key| + 1..];
    assert line == key + (['='] + r);
    KeyOfRendered(key, r);
  }

  lemma KeyIsThere(line: string)
    requires KeyOf(line).Some?
    ensures var key := KeyOf(line).value; line[..|key|] == key && line[|key|] == '='
  {
  }

  lemma BindApart(env: Env, line: string, key: string, value: string)
    requires KeyOf(line) != Some(key)
    ensures Bind(env[key := value], line) == Bind(env, line)[key := value]
  {
    hide KeyOf, ParseLine;
    if ParseLine(line).Some? {
      ParsedKey(line);
    }
  }

  // Lines for other keys commute with a binding.
  lemma {:induction false} ParseApart(env: Env, lines: seq<string>, key: string, value: string)
    requires forall i :: 0 <= i < |lines| ==> KeyOf(lines[i]) != Some(key)
    ensures ParseFrom(env[key := value], lines) == ParseFrom(env, lines)[key := value]
    decreases |lines|
  {
    hide KeyOf, Bind;
    if |lines| > 0 {
      var n := |lines| - 1;
      ParseApart(env, lines[..n], key, value);
      BindApart(ParseFrom(env, lines[..n]), lines[n], key, value);
    }
  }

  lemma {:induction false} ParseConcat(env: Env, a: seq<string>, b: seq<string>)
    ensures ParseFrom(env, a + b) == ParseFrom(ParseFrom(env, a), b)
    decreases |b|
  {
    hide Bind;
    if |b| == 0 {
      assert a + b == a;
    } else {
      assert (a + b)[..|a + b| - 1] == a + b[..|b| - 1];
      ParseConcat(env, a, b[..|b| - 1]);
    }
  }

  lemma ParseOne(env: Env, line: string)
    ensures ParseFrom(env, [line]) == Bind(env, line)
  {
    assert [line][..0] == [];
  }

  // The line of the key itself does not matter once the key is bound anew.
  lemma BindAgain(env: Env, line: string, key: string, value: string)
    requires KeyOf(line) == Some(key)
    ensures Bind(env, line)[key := value] == env[key := value]
  {
    hide KeyOf, ParseLine;
    if ParseLine(line).Some? {
      ParsedKey(line);
    }
  }

  lemma PlaceParses(lines: seq<string>, key: string, value: string)
    requires IsName(key) && Plain(value)
    ensures Parse(Place(lines, LastOf(lines, key), Rendered(key, value))) == Parse(lines)[key := value]
  {
    hide KeyOf, ParseLine, ParseFrom, LastOf, IsName, Plain, Rendered;
    var at, line := LastOf(lines, key), Rendered(key, value);
    RenderedRoundTrip(key, value);
    if at.None? {
      ParseConcat(map[], lines, [line]);
      ParseOne(Parse(lines), line);
    } else {
      var i := at.value;
      var before, after := lines[..i], lines[i + 1..];
      assert lines == (before + [lines[i]]) + after && lines[i := line] == (before + [line]) + after;
      var env := Parse(before);
      ParseConcat(map[], before, [lines[i]]);
      ParseConcat(map[], before, [line]);
      ParseConcat(map[], before + [lines[i]], after);
      ParseConcat(map[], before + [line], after);
      ParseOne(env, lines[i]);
      ParseOne(env, line);
      BindAgain(env, lines[i], key, value);
      ParseApart(Bind(env, lines[i]), after, key, value);
      assert Bind(env, line) == env[key := value];
    }
  }

  lemma EndedParses(line: string)
    requires |line| == 0 || !LineEnd(line[|line| - 1])
    ensures ParseLine(line + ['\n']) == ParseLine(line)
  {
    ChopUnlessEnded(line);
  }

  lemma {:induction false} TerminatedParses(lines: seq<string>)
    ensures Parse(Terminated(lines)) == Parse(lines)
  {
    hide ParseFrom, ParseLine;
    if Terminated(lines) != lines {
      var n := |lines| - 1;
      var line := lines[n];
      EndedParses(line);
      assert lines == lines[..n] + [line];
      ParseConcat(map[], lines[..n], [line]);
      ParseConcat(map[], lines[..n], [line + ['\n']]);
      ParseOne(Parse(lines[..n]), line);
      ParseOne(Parse(lines[..n]), line + ['\n']);
    }
  }

  lemma {:induction false} UpdatedParses(lines: seq<string>, adds: seq<Binding>)
    requires forall b :: b in adds ==> IsName(b.key) && Plain(b.value)
    ensures Parse(Updated(lines, adds)) == Override(Parse(lines), adds)
    decreases |adds|
  {
    hide ParseFrom, IsName, Plain, LastOf;
    if |adds| > 0 {
      var front, b := adds[..|adds| - 1], adds[|adds| - 1];
      assert b in adds && forall x :: x in front ==> x in adds;
      UpdatedParses(lines, front);
      PlaceParses(Updated(lines, front), b.key, b.value);
    }
  }

  // The update law: what an updated file says is what it said before, overridden.
  lemma {:induction false} UpdateLaw(lines: seq<string>, adds: seq<Binding>)
    requires forall b :: b in adds ==> IsName(b.key) && Plain(b.value)
    ensures Parse(UpdateOf(lines, adds)) == Override(Parse(lines), adds)
  {
    hide Parse, Override, Updated, IsName, Plain;
    TerminatedParses(lines);
    UpdatedParses(Terminated(lines), adds);
  }

  lemma {:induction false} ChopConcat(a: string, s: string)
    requires |a| > 0 && !LineEnd(a[|a| - 1])
    ensures ChopEnd(a + s) == a + ChopEnd(s)
    decreases |s|
  {
    if |s| == 0 {
      assert a + s == a;
    } else {
      assert (a + s)[..|a + s| - 1] == a + s[..|s| - 1];
      if LineEnd(s[|s| - 1]) {
        ChopConcat(a, s[..|s| - 1]);
      }
    }
  }

  lemma ChopNewline(s: string)
    ensures ChopEnd(s + ['\n']) == ChopEnd(s)
  {
    assert (s + ['\n'])[..|s|] == s;
  }

  lemma RereadShortens(s: string)
    ensures |Reread(s)| <= |s|
  {
    hide Space, Rstrip, Lstrip;
    LstripShortens(s);
    RstripEnds(Lstrip(s));
  }

  lemma ReadBackMeansPlain(key: string, value: string)
    requires IsName(key)
    ensures ParseLine(Rendered(key, value)) == Some(Binding(key, value)) <==> Plain(value)
  {
    hide KeyOf, ChopEnd, Reread, NameChar;
    if Plain(value) {
      RenderedRoundTrip(key, value);
    }
    var a := key + ['='];
    assert Rendered(key, value) == a + (value + ['\n']);
    assert !LineEnd(a[|a| - 1]);
    ChopConcat(a, value + ['\n']);
    ChopNewline(value);
    var t := a + ChopEnd(value);
    assert t == key + (['='] + ChopEnd(value)) && t[|key| + 1..] == ChopEnd(value);
    KeyOfRendered(key, ChopEnd(value));
    RereadShortens(ChopEnd(value));
    assert |ChopEnd(value)| == |value| ==> ChopEnd(value) == value;
    assert ChopEnd(value) <= value;
  }

  // --------------------------------------------------------- what is read, spelled out

  predicate AllSpace(s: string) { forall i :: 0 <= i < |s| ==> Space(s[i]) }

  predicate AllEnds(s: string) { forall i :: 0 <= i < |s| ==> s[i] == '\r' || s[i] == '\n' }

  predicate Trimmed(s: string) { |s| == 0 || (!Space(s[0]) && !Space(s[|s| - 1])) }

  // In two equal quote characters, of either kind.
  predicate Quoted(s: string) { |s| >= 2 && s[0] == s[|s| - 1] && (s[0] == '"' || s[0] == '\'') }

  lemma {:induction false} StripsFront(before: string, s: string)
    requires AllSpace(before) && (|s| == 0 || !Space(s[0]))
    ensures Lstrip(before + s) == s
    decreases |before|
  {
    hide Space;
    if |before| == 0 {
      assert before + s == s;
    } else {
      assert (before + s)[1..] == before[1..] + s;
      StripsFront(before[1..], s);
    }
  }

  lemma {:induction false} StripsBack(s: string, after: string)
    requires AllSpace(after) && (|s| == 0 || !Space(s[|s| - 1]))
    ensures Rstrip(s + after) == s
    decreases |after|
  {
    hide Space;
    if |after| == 0 {
      assert s + after == s;
    } else {
      assert (s + after)[..|s + after| - 1] == s + after[..|after| - 1];
      StripsBack(s, after[..|after| - 1]);
    }
  }

  lemma StripsAround(before: string, y: string, after: string)
    requires AllSpace(before) && AllSpace(after) && |y| > 0 && Trimmed(y)
    ensures Strip(before + y + after) == y
  {
    hide Space, Lstrip, Rstrip;
    assert before + y + after == before + (y + after);
    StripsFront(before, y + after);
    StripsBack(y, after);
  }

  lemma {:induction false} ChopsEnds(s: string, end: string)
    requires AllEnds(end)
    ensures ChopEnd(s + end) == ChopEnd(s)
    decreases |end|
  {
    if |end| == 0 {
      assert s + end == s;
    } else {
      assert (s + end)[..|s + end| - 1] == s + end[..|end| - 1];
      ChopsEnds(s, end[..|end| - 1]);
    }
  }

  lemma ChopOf(x: string)
    ensures ChopEnd(x) <= x && ('\n' !in x ==> '\n' !in ChopEnd(x))
    ensures |x| > 0 && !LineEnd(x[|x| - 1]) ==> ChopEnd(x) == x
  {
  }

  // An assignment, its line end included, stands for the text after the equals sign.
  lemma {:induction false} Assigns(key: string, x: string, end: string)
    requires IsName(key) && '\n' !in x && AllEnds(end)
    ensures ParseLine(key + (['='] + (x + end))) == Some(Binding(key, Reread(ChopEnd(x))))
  {
    hide KeyOf, ChopEnd, Reread, NameChar, LineEnd;
    var a := key + ['='];
    assert key + (['='] + (x + end)) == a + (x + end);
    EqualsIsNoEnd();
    ChopConcat(a, x + end);
    ChopsEnds(x, end);
    ChopOf(x);
    var t := a + ChopEnd(x);
    assert t == key + (['='] + ChopEnd(x)) && t[|key| + 1..] == ChopEnd(x);
    KeyOfRendered(key, ChopEnd(x));
  }

  lemma EqualsIsNoEnd()
    ensures !LineEnd('=')
  {
  }

  // Two equal quote characters around a value are taken off, and white space around them.
  lemma {:induction false} QuotesAreDropped(key: string, before: string, q: char, v: string, after: string, end: string)
    requires IsName(key) && (q == '"' || q == '\'') && '\n' !in v && AllEnds(end)
    requires AllSpace(before) && AllSpace(after) && '\n' !in before + after && '\r' !in after
    ensures ParseLine(key + (['='] + ((before + ([q] + v + [q]) + after) + end))) == Some(Binding(key, v))
  {
    hide Space, Strip, ParseLine, ChopEnd, IsName;
    var y := [q] + v + [q];
    var x := before + y + after;
    QuoteIsSolid(q);
    Assigns(key, x, end);
    LastIsNoEnd(before, y, after);
    ChopOf(x);
    StripsAround(before, y, after);
    assert y[1..|y| - 1] == v;
  }

  lemma QuoteIsSolid(q: char)
    requires q == '"' || q == '\''
    ensures !Space(q)
  {
  }

  lemma LastIsNoEnd(before: string, y: string, after: string)
    requires |y| > 0 && !Space(y[|y| - 1]) && '\n' !in after && '\r' !in after
    ensures var x := before + y + after; !LineEnd(x[|x| - 1])
  {
    var x := before + y + after;
    if |after| > 0 {
      assert x[|x| - 1] == after[|after| - 1] && after[|after| - 1] in after;
    } else {
      assert x[|x| - 1] == y[|y| - 1];
    }
  }

  // Any other value comes without the white space around it, quote characters and all.
  lemma {:induction false} OthersAreKept(key: string, before: string, y: string, after: string, end: string)
    requires IsName(key) && |y| > 0 && Trimmed(y) && !Quoted(y) && '\n' !in y && AllEnds(end)
    requires AllSpace(before) && AllSpace(after) && '\n' !in before + after && '\r' !in after
    ensures ParseLine(key + (['='] + ((before + y + after) + end))) == Some(Binding(key, y))
  {
    hide Space, Strip, ParseLine, ChopEnd, IsName;
    var x := before + y + after;
    Assigns(key, x, end);
    LastIsNoEnd(before, y, after);
    ChopOf(x);
    StripsAround(before, y, after);
  }

  lemma BlankIsEmpty(key: string, end: string)
    requires IsName(key) && AllEnds(end)
    ensures ParseLine(key + (['='] + ("" + end))) == Some(Binding(key, ""))
  {
    hide ParseLine, IsName;
    Assigns(key, "", end);
  }

  // A value is read back as it was if and only if it is on one line, trimmed, and not quoted.
  lemma {:induction false} PlainExactly(value: string)
    ensures Plain(value) <==> '\n' !in value && Trimmed(value) && !Quoted(value)
  {
    hide Space, Lstrip, Rstrip;
    LstripShortens(value);
    RstripEnds(Lstrip(value));
    if Trimmed(value) && |value| > 0 {
      assert [] + value + [] == value;
      StripsAround([], value, []);
    }
    if Plain(value) {
      assert |Strip(value)| == |value|;
      LstripIsAll(value);
    }
  }

  lemma LstripIsAll(s: string)
    ensures Lstrip(s) == s <==> |s| == 0 || !Space(s[0])
  {
    hide Space;
    if |s| > 0 && Space(s[0]) {
      LstripShortens(s[1..]);
    }
  }

  lemma ReadBackIffPlain(key: string, value: string)
    requires IsName(key)
    ensures ParseLine(key + (['='] + (value + ['\n']))) == Some(Binding(key, value)) <==>
            '\n' !in value && Trimmed(value) && !Quoted(value)
  {
    hide ParseLine, IsName, Plain, Trimmed, Quoted;
    ReadBackMeansPlain(key, value);
    PlainExactly(value);
  }

  // A name, an equals sign, anything on the same line, and the end of the line.
  ghost predicate IsAssignment(line: string, key: string, x: string, end: string) {
    IsName(key) && '\n' !in x && AllEnds(end) && line == key + (['='] + (x + end))
  }

  // Lines of that form bind their key, and no others bind anything.
  lemma {:induction false} ParsesExactly(line: string)
    ensures ParseLine(line).Some? <==>
            exists key: string, x: string, end: string :: IsAssignment(line, key, x, end)
  {
    hide ParseLine, IsName;
    if ParseLine(line).Some? {
      var key, x, end := Parts(line);
    }
    forall key: string, x: string, end: string | IsAssignment(line, key, x, end)
      ensures ParseLine(line).Some?
    {
      Assigns(key, x, end);
    }
  }

  lemma {:induction false} Parts(line: string) returns (key: string, x: string, end: string)
    requires ParseLine(line).Some?
    ensures IsAssignment(line, key, x, end)
  {
    hide NameRun, IsName;
    var t := ChopEnd(line);
    key := KeyOf(t).value;
    KeyIsThere(t);
    x, end := t[|key| + 1..], line[|t|..];
    EndsAreChopped(line);
    assert t == key + (['='] + x) && line == t + end;
    assert line == key + (['='] + (x + end));
  }

  lemma {:induction false} EndsAreChopped(s: string)
    ensures ChopEnd(s) <= s && AllEnds(s[|ChopEnd(s)|..])
    decreases |s|
  {
    if |s| > 0 && LineEnd(s[|s| - 1]) {
      EndsAreChopped(s[..|s| - 1]);
    }
  }

  lemma NamesLookLike()
    ensures IsName(['a', 'Z', '_', '0', '9']) && IsName(['_']) && IsName(['z', 'A'])
    ensures !IsName([]) && !IsName(['9', 'a']) && !IsName(['a', '-', 'b']) && !IsName([' ', 'a'])
    ensures forall c: char :: IsName([c]) <==> 65 <= c as int <= 90 || 97 <= c as int <= 122 || c == '_'
    ensures forall c: char :: NameChar(c) <==> IsName([c]) || 48 <= c as int <= 57
  {
    assert !NameChar(['a', '-', 'b'][1]);
    forall c: char ensures IsName([c]) <==> 65 <= c as int <= 90 || 97 <= c as int <= 122 || c == '_' {
      assert [c][0] == c;
    }
  }

  // -------------------------------------------------------------- lines that stay

  lemma LastOfIs(lines: seq<string>, key: string, at: Option<nat>)
    requires at.Some? ==> at.value < |lines| && KeyOf(lines[at.value]) == Some(key)
    requires forall i :: (if at.Some? then at.value + 1 else 0) <= i < |lines| ==> KeyOf(lines[i]) != Some(key)
    ensures LastOf(lines, key) == at
  {
    hide KeyOf, LastOf;
    var r := LastOf(lines, key);
    if r.Some? {
      assert KeyOf(lines[r.value]) == Some(key);
    }
  }

  lemma LastOfPlace(lines: seq<string>, b: Binding, key: string)
    requires IsName(b.key) && b.key != key && Plain(b.value)
    ensures LastOf(Place(lines, LastOf(lines, b.key), Rendered(b.key, b.value)), key) == LastOf(lines, key)
  {
    hide KeyOf, LastOf, IsName, Plain, Rendered;
    RenderedRoundTrip(b.key, b.value);
    LastOfIs(Place(lines, LastOf(lines, b.key), Rendered(b.key, b.value)), key, LastOf(lines, key));
  }

  lemma {:induction false} LastOfUpdated(lines: seq<string>, adds: seq<Binding>, key: string)
    requires Proper(adds) && forall b :: b in adds ==> b.key != key
    ensures LastOf(Updated(lines, adds), key) == LastOf(lines, key)
    ensures |Updated(lines, adds)| >= |lines|
    decreases |adds|
  {
    hide LastOf, IsName, Plain, KeyOf;
    if |adds| > 0 {
      var front, b := adds[..|adds| - 1], adds[|adds| - 1];
      assert b in adds && forall x :: x in front ==> x in adds;
      LastOfUpdated(lines, front, key);
      LastOfPlace(Updated(lines, front), b, key);
    }
  }

  // What line i of the file becomes.
  function NewLine(lines: seq<string>, adds: seq<Binding>, i: nat): string
    requires i < |lines|
  {
    if |adds| == 0 then lines[i]
    else
      var b := adds[|adds| - 1];
      if LastOf(lines, b.key) == Some(i) then Rendered(b.key, b.value)
      else NewLine(lines, adds[..|adds| - 1], i)
  }

  // The additions for keys that the file does not have, in order.
  function NewLines(lines: seq<string>, adds: seq<Binding>): seq<string> {
    if |adds| == 0 then []
    else
      var b := adds[|adds| - 1];
      NewLines(lines, adds[..|adds| - 1])
      + (if LastOf(lines, b.key).None? then [Rendered(b.key, b.value)] else [])
  }

  // All lines keep their place and, unless they were the last for an added key, their
  // content; the additions for new keys follow them in order.
  lemma {:induction false} UpdateKeepsLines(lines: seq<string>, adds: seq<Binding>)
    requires Proper(adds)
    ensures |Updated(lines, adds)| >= |lines|
    ensures Updated(lines, adds)[|lines|..] == NewLines(lines, adds)
    ensures forall i :: 0 <= i < |lines| ==> Updated(lines, adds)[i] == NewLine(lines, adds, i)
    decreases |adds|
  {
    hide LastOf, IsName, Plain, KeyOf, Rendered;
    if |adds| > 0 {
      var front, b := adds[..|adds| - 1], adds[|adds| - 1];
      assert Proper(front) && forall x :: x in front ==> x.key != b.key by {
        assert b in adds && forall x :: x in front ==> x in adds;
      }
      UpdateKeepsLines(lines, front);
      LastOfUpdated(lines, front, b.key);
    }
  }

  predicate Ended(line: string) { |line| > 0 && (line[|line| - 1] == '\n' || line[|line| - 1] == '\r') }

  // Lines stay apart: every line of the update ends like a line, if all but the last did.
  lemma {:induction false} UpdatedLinesAreEnded(lines: seq<string>, adds: seq<Binding>)
    requires forall i :: 0 <= i < |lines| - 1 ==> Ended(lines[i])
    ensures forall line :: line in UpdateOf(lines, adds) ==> Ended(line)
  {
    hide Updated;
    var t := Terminated(lines);
    forall i | 0 <= i < |t| ensures Ended(t[i]) {
    }
    EndedStay(t, adds);
  }

  lemma {:induction false} EndedStay(lines: seq<string>, adds: seq<Binding>)
    requires forall line :: line in lines ==> Ended(line)
    ensures forall line :: line in Updated(lines, adds) ==> Ended(line)
  {
    hide LastOf;
    if |adds| > 0 {
      EndedStay(lines, adds[..|adds| - 1]);
    }
  }

  // ------------------------------------------------------------------------ the loops

  method ParseEnv(lines: seq<string>) returns (values: Env)
    ensures values == Parse(lines)
  {
    hide ParseLine;
    values := map[];
    for i := 0 to |lines|
      invariant values == Parse(lines[..i])
    {
      assert lines[..i + 1][..i] == lines[..i];
      var b := ParseLine(lines[i]);
      if b.Some? {
        values := values[b.value.key := b.value.value];
      }
    }
    assert lines[..|lines|] == lines;
  }

  // Where the last line for each key is.
  method Positions(lines: seq<string>) returns (positions: map<string, nat>)
    ensures forall key :: LastOf(lines, key) == if key in positions then Some(positions[key]) else None
  {
    hide KeyOf;
    positions := map[];
    for i := 0 to |lines|
      invariant forall key :: LastOf(lines[..i], key) == if key in positions then Some(positions[key]) else None
    {
      assert lines[..i + 1][..i] == lines[..i];
      var key := KeyOf(lines[i]);
      if key.Some? {
        positions := positions[key.value := i];
      }
    }
    assert lines[..|lines|] == lines;
  }

  method UpdateLines(lines: seq<string>, adds: seq<Binding>) returns (result: seq<string>)
    requires Proper(adds)
    ensures result == UpdateOf(lines, adds)
    ensures Parse(result) == Override(Parse(lines), adds)
    ensures |result| >= |lines| && result[|lines|..] == NewLines(Terminated(lines), adds)
    ensures forall i :: 0 <= i < |lines| ==> result[i] == NewLine(Terminated(lines), adds, i)
  {
    hide LastOf, Parse, Override, NewLine, NewLines, Rendered, IsName, Plain, KeyOf;
    result := lines;
    if |result| > 0 && !(|result[|result| - 1]| > 0 && LineEnd(result[|result| - 1][|result[|result| - 1]| - 1])) {
      result := result[|result| - 1 := result[|result| - 1] + ['\n']];
    }
    ghost var base := Terminated(lines);
    assert result == base;
    var positions := Positions(result);
    for i := 0 to |adds|
      invariant result == Updated(base, adds[..i]) && |result| >= |base|
    {
      assert adds[..i + 1][..i] == adds[..i];
      ProperFront(adds, i);
      LastOfUpdated(base, adds[..i], adds[i].key);
      if adds[i].key in positions {
        result := result[positions[adds[i].key] := Rendered(adds[i].key, adds[i].value)];
      } else {
        result := result + [Rendered(adds[i].key, adds[i].value)];
      }
    }
    assert adds[..|adds|] == adds;
    UpdateKeepsLines(base, adds);
    assert forall b :: b in adds ==> IsName(b.key) && Plain(b.value);
    UpdateLaw(lines, adds);
  }

  lemma ProperFront(adds: seq<Binding>, i: nat)
    requires Proper(adds) && i < |adds|
    ensures Proper(adds[..i]) && forall b :: b in adds[..i] ==> b.key != adds[i].key
    ensures IsName(adds[i].key) && Plain(adds[i].value)
  {
    hide IsName, Plain;
    assert adds[i] in adds && forall b :: b in adds[..i] ==> b in adds;
  }
}
