// The agent's configuration file: what it holds, and what is recovered from it.
module ConfigFiles {
  import opened PythonText
  import opened Wrappers

  datatype Field = Text(text: string) | Number(number: int) | Flag(flag: bool) | Null

  type Data = map<string, Field>

  // The JSON library and the hash, as far as they matter here.
  datatype Codec = Codec(dumps: Data -> string, loads: string -> Option<Data>, hash: string -> string)

  predicate HexDigit(c: char) { '0' <= c <= '9' || 'a' <= c <= 'f' }

  const CHECKSUM_TAG := "# checksum: "

  // What precedes the last newline, and what follows it.
  function LastBreak(s: string): (n: nat)
    ensures n <= |s|
    decreases |s|
  {
    if |s| == 0 || s[|s| - 1] == '\n' then |s| else LastBreak(s[..|s| - 1])
  }

  function LastLine(s: string): string { s[LastBreak(s)..] }

  predicate IsObjectText(s: string) { |s| >= 2 && s[0] == '{' && s[|s| - 1] == '}' && !(CHECKSUM_TAG <= LastLine(s)) }

  // Printing and parsing are inverse; what is printed is an object, none of whose lines looks
  // like a checksum line; a hash is a word of hexadecimal digits.
  ghost predicate IsCodec(c: Codec) {
    && (forall d: Data :: c.loads(c.dumps(d)) == Some(d) && IsObjectText(c.dumps(d)))
    && (forall s: string :: |c.hash(s)| > 0 && forall i :: 0 <= i < |c.hash(s)| ==> HexDigit(c.hash(s)[i]))
  }

  // ---------------------------------------------------------------------- the two forms

  // What save() writes.
  function Sealed(c: Codec, d: Data): string { c.dumps(d) + (['\n'] + (CHECKSUM_TAG + (c.hash(c.dumps(d)) + ['\n']))) }

  // The part of a checksum line after its first ": ".
  function AfterColon(line: string): string
    decreases |line|
  {
    if |line| < 2 then "" else if line[0] == ':' && line[1] == ' ' then line[2..] else AfterColon(line[1..])
  }

  // The text without its last line, and without the newline before that.
  function BeforeLastLine(s: string): string { if LastBreak(s) == 0 then "" else s[..LastBreak(s) - 1] }

  // Checks the checksum if the last line is one, and parses the rest.
  function Validated(c: Codec, content: string): Option<Data> {
    var s := Strip(content);
    if !(CHECKSUM_TAG <= LastLine(s)) then c.loads(content)
    else if c.hash(BeforeLastLine(s)) != Strip(AfterColon(LastLine(s))) then None
    else c.loads(BeforeLastLine(s))
  }

  lemma {:induction false} LastBreakAfter(a: string, b: string)
    requires '\n' !in b
    ensures LastBreak(a + ['\n'] + b) == |a| + 1
    decreases |b|
  {
    var s := a + ['\n'] + b;
    if |b| > 0 {
      assert b[|b| - 1] in b;
      assert s[..|s| - 1] == a + ['\n'] + b[..|b| - 1];
      LastBreakAfter(a, b[..|b| - 1]);
    }
  }

  predicate NoSpaceAtEnds(s: string) { |s| > 0 && !Space(s[0]) && !Space(s[|s| - 1]) }

  lemma StripKeeps(s: string)
    requires NoSpaceAtEnds(s)
    ensures Strip(s) == s && Strip(s + ['\n']) == s
  {
    assert (s + ['\n'])[0] == s[0] && (s + ['\n'])[..|s|] == s;
    assert Lstrip(s) == s && Lstrip(s + ['\n']) == s + ['\n'];
    assert Rstrip(s) == s;
  }

  lemma {:induction false} AfterColonOf(a: string, h: string)
    requires ':' !in a
    ensures AfterColon(a + ([':', ' '] + h)) == h
    decreases |a|
  {
    var s := a + ([':', ' '] + h);
    if |a| == 0 {
      assert s == [':', ' '] + h && s[2..] == h;
    } else {
      assert a[0] in a && s[1..] == a[1..] + ([':', ' '] + h);
      AfterColonOf(a[1..], h);
    }
  }

  lemma TagColon(h: string)
    ensures AfterColon(CHECKSUM_TAG + h) == h
    ensures '\n' !in CHECKSUM_TAG
  {
    var a := "# checksum";
    assert CHECKSUM_TAG == a + [':', ' '];
    assert CHECKSUM_TAG + h == a + ([':', ' '] + h);
    AfterColonOf(a, h);
  }

  lemma HashIsWord(c: Codec, s: string)
    requires IsCodec(c)
    ensures NoSpaceAtEnds(c.hash(s)) && '\n' !in c.hash(s)
  {
    var h := c.hash(s);
    assert HexDigit(h[0]) && HexDigit(h[|h| - 1]);
  }

  // A last line "# checksum: " and a word decides: the rest is parsed if the word is its hash,
  // and rejected otherwise, whatever it is.
  lemma {:induction false} ChecksumDecides(c: Codec, body: string, h: string)
    requires |body| > 0 && !Space(body[0]) && NoSpaceAtEnds(h) && '\n' !in h
    ensures Validated(c, body + (['\n'] + ("# checksum: " + (h + ['\n']))))
            == if c.hash(body) == h then c.loads(body) else None
  {
    hide AfterColon, LastBreak, Strip, NoSpaceAtEnds;
    var line := CHECKSUM_TAG + h;
    var s := body + ['\n'] + line;
    assert body + (['\n'] + ("# checksum: " + (h + ['\n']))) == s + ['\n'];
    TagColon(h);
    SealIsTrimmed(body, line, h, CHECKSUM_TAG);
    StripKeeps(s);
    StripKeeps(h);
    LastBreakAfter(body, line);
    assert LastLine(s) == line && BeforeLastLine(s) == body;
  }

  // What save() writes is recovered.
  lemma SealedRoundTrip(c: Codec, d: Data)
    requires IsCodec(c)
    ensures Validated(c, Sealed(c, d)) == Some(d)
  {
    hide Validated, NoSpaceAtEnds, LastBreak;
    var text := c.dumps(d);
    HashIsWord(c, text);
    assert IsObjectText(text) && c.loads(text) == Some(d);
    ChecksumDecides(c, text, c.hash(text));
  }

  lemma SealIsTrimmed(text: string, line: string, h: string, tag: string)
    requires |text| > 0 && !Space(text[0]) && line == tag + h && NoSpaceAtEnds(h)
    ensures NoSpaceAtEnds(text + ['\n'] + line)
  {
    hide CHECKSUM_TAG, LastBreak;
    var s := text + ['\n'] + line;
    assert s[|s| - 1] == h[|h| - 1] && s[0] == text[0];
  }

  // What save_agent_token_atomic() writes is recovered too.
  lemma PlainRoundTrip(c: Codec, d: Data)
    requires IsCodec(c)
    ensures Validated(c, c.dumps(d)) == Some(d)
  {
    hide CHECKSUM_TAG, LastBreak, Strip;
    assert IsObjectText(c.dumps(d)) && c.loads(c.dumps(d)) == Some(d);
    StripKeeps(c.dumps(d));
  }

  // ------------------------------------------------------------------------ recovery

  datatype Path = Config | Temp | Bak | Backup

  type Files = map<Path, string>

  function FileAt(files: Files, p: Path): Option<string> { if p in files then Some(files[p]) else None }

  // What one file gives: nothing if it is missing, corrupt or an empty object.
  function Usable(c: Codec, content: Option<string>): Option<Data> {
    if content.None? then None
    else
      var d := Validated(c, content.value);
      if d.Some? && |d.value| > 0 then d else None
  }

  // The configuration a new process starts with, environment variables aside. The backup is
  // tried only when the file is there and cannot be used.
  function Recovered(c: Codec, defaults: Data, files: Files): Data {
    var own, backup := Usable(c, FileAt(files, Config)), Usable(c, FileAt(files, Bak));
    if own.Some? then defaults + own.value
    else if Config in files && backup.Some? then defaults + backup.value
    else defaults
  }

  // The configuration file holds d, in either form.
  predicate Holds(c: Codec, files: Files, d: Data) {
    Config in files && (files[Config] == Sealed(c, d) || files[Config] == c.dumps(d))
  }

  // Data that has all the default settings, as that of a running agent does.
  predicate Complete(defaults: Data, d: Data) { |d| > 0 && defaults.Keys <= d.Keys }

  lemma {:induction false} HeldIsRecovered(c: Codec, defaults: Data, files: Files, d: Data)
    requires IsCodec(c) && Holds(c, files, d) && Complete(defaults, d)
    ensures Recovered(c, defaults, files) == d
  {
    hide Validated, Sealed, IsCodec;
    SealedRoundTrip(c, d);
    PlainRoundTrip(c, d);
    assert defaults + d == d;
  }

  // Any stored data, complete or not, comes over the defaults.
  lemma {:induction false} StoredOverDefaults(c: Codec, defaults: Data, files: Files, d: Data, k: string)
    requires IsCodec(c) && Holds(c, files, d) && |d| > 0
    ensures var r := Recovered(c, defaults, files);
            && (k in d ==> k in r && r[k] == d[k])
            && (k !in d ==> (k in r <==> k in defaults) && (k in r ==> r[k] == defaults[k]))
  {
    hide Validated, Sealed, IsCodec;
    SealedRoundTrip(c, d);
    PlainRoundTrip(c, d);
  }

  // A file whose checksum does not fit counts as damaged: a new process has the backup's data
  // if there is any, and the defaults if not.
  lemma {:induction false} DamageIsDetected(c: Codec, defaults: Data, files: Files, body: string, h: string)
    requires |body| > 0 && !Space(body[0]) && NoSpaceAtEnds(h) && '\n' !in h && c.hash(body) != h
    requires Config in files && files[Config] == body + (['\n'] + ("# checksum: " + (h + ['\n'])))
    ensures Recovered(c, defaults, files)
            == if Usable(c, FileAt(files, Bak)).Some? then defaults + Usable(c, FileAt(files, Bak)).value else defaults
  {
    hide Validated, NoSpaceAtEnds;
    ChecksumDecides(c, body, h);
  }

  // Without a configuration file the backup is not looked at.
  lemma NoFileNoBackup(c: Codec, defaults: Data, files: Files)
    requires Config !in files
    ensures Recovered(c, defaults, files) == defaults
  {
    hide Validated;
  }

  // A configuration file that has been damaged is made up for by the backup.
  lemma {:induction false} BackupIsRecovered(c: Codec, defaults: Data, files: Files, d: Data)
    requires IsCodec(c) && Config in files && Usable(c, FileAt(files, Config)).None?
    requires Bak in files && (files[Bak] == Sealed(c, d) || files[Bak] == c.dumps(d)) && Complete(defaults, d)
    ensures Recovered(c, defaults, files) == d
  {
    hide Validated, Sealed, IsCodec;
    SealedRoundTrip(c, d);
    PlainRoundTrip(c, d);
    assert defaults + d == d;
  }

  // An empty object in the file counts as no configuration at all.
  lemma EmptyFallsBack(c: Codec, defaults: Data, files: Files, d: Data)
    requires IsCodec(c) && Holds(c, files, map[])
    requires Bak in files && (files[Bak] == Sealed(c, d) || files[Bak] == c.dumps(d))
    ensures Recovered(c, defaults, files) == defaults + d
  {
    hide Validated, Sealed, IsCodec;
    SealedRoundTrip(c, map[]);
    PlainRoundTrip(c, map[]);
    SealedRoundTrip(c, d);
    PlainRoundTrip(c, d);
    if |d| == 0 {
      assert d == map[] && defaults + d == defaults;
    }
  }

  // The assumptions on JSON and hashes, in characters.
  lemma CodecsLookLike(h: char)
    ensures HexDigit(h) <==> h in "0123456789abcdef"
    ensures IsObjectText(['{', '}']) && IsObjectText(['{', '\n', '}']) && !IsObjectText(['[', ']'])
  {
    assert CHECKSUM_TAG[0] == '#';
    var s := ['{', '\n', '}'];
    assert s[..2] == ['{', '\n'] && s[2..] == ['}'];
    assert LastBreak(s) == 2 && LastBreak(['{', '}']) == 0;
  }
}
