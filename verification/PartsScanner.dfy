// Recovering the text of a conversation from JSON objects joined by commas, some malformed.
module PartsScanner {
  import opened Wrappers

  // ------------------------------------------------------------------- the resync scan

  datatype Scan = Scan(inString: bool, escaped: bool, depth: nat)

  const START: Scan := Scan(false, false, 0)

  function Step(st: Scan, c: char): Scan {
    if st.inString then
      if st.escaped then st.(escaped := false)
      else if c == '\\' then st.(escaped := true)
      else if c == '"' then st.(inString := false)
      else st
    else if c == '"' then st.(inString := true)
    else if c == '{' then st.(depth := st.depth + 1)
    else if c == '}' && st.depth > 0 then st.(depth := st.depth - 1)
    else st
  }

  // The scan of s from a given state.
  function Scanned(st: Scan, s: string): Scan
    decreases |s|
  {
    if |s| == 0 then st else Scanned(Step(st, s[0]), s[1..])
  }

  predicate TopLevel(st: Scan) { !st.inString && st.depth == 0 }

  // A comma at position k of s that separates segments.
  predicate TopComma(s: string, k: nat) { k < |s| && s[k] == ',' && TopLevel(Scanned(START, s[..k])) }

  // Just past the first such comma, or the end.
  function Resync(st: Scan, s: string): (n: nat)
    ensures n <= |s| && (|s| > 0 ==> n > 0)
    decreases |s|
  {
    if |s| == 0 then 0
    else if s[0] == ',' && TopLevel(st) then 1
    else 1 + Resync(Step(st, s[0]), s[1..])
  }

  lemma {:induction false} ScannedSnoc(st: Scan, s: string, c: char)
    ensures Scanned(st, s + [c]) == Step(Scanned(st, s), c)
    decreases |s|
  {
    if |s| == 0 {
      assert (s + [c])[1..] == "";
    } else {
      assert (s + [c])[1..] == s[1..] + [c];
      ScannedSnoc(Step(st, s[0]), s[1..], c);
    }
  }

  lemma {:induction false} ResyncFrom(st: Scan, s: string)
    ensures forall k :: 0 <= k < Resync(st, s) - 1 ==> !(s[k] == ',' && TopLevel(Scanned(st, s[..k])))
    ensures var n := Resync(st, s);
            n < |s| ==> s[n - 1] == ',' && TopLevel(Scanned(st, s[..n - 1]))
    ensures var n := Resync(st, s);
            n == |s| > 0 && !(s[n - 1] == ',' && TopLevel(Scanned(st, s[..n - 1]))) ==>
              forall k :: 0 <= k < |s| ==> !(s[k] == ',' && TopLevel(Scanned(st, s[..k])))
    decreases |s|
  {
    if |s| > 0 && !(s[0] == ',' && TopLevel(st)) {
      var st', rest, n := Step(st, s[0]), s[1..], Resync(st, s);
      ResyncFrom(st', rest);
      forall k | 1 <= k < |s| ensures Scanned(st, s[..k]) == Scanned(st', rest[..k - 1]) && s[k] == rest[k - 1] {
        assert s[..k][1..] == rest[..k - 1];
      }
      assert s[..0] == "";
    }
  }

  // What the scan finds is the first separating comma, if there is one.
  lemma {:induction false} ResyncIsFirstTopComma(s: string)
    requires |s| > 0
    ensures var n := Resync(START, s);
            && 0 < n <= |s|
            && (forall k: nat :: k < n - 1 ==> !TopComma(s, k))
            && (TopComma(s, n - 1) || (n == |s| && forall k: nat :: !TopComma(s, k)))
  {
    ResyncFrom(START, s);
  }

  // ------------------------------------------------------------------------ extraction

  // What a decoded part contributes: a text object its text, everything else nothing.
  datatype Part = TextPart(text: string) | OtherPart

  datatype Decoded = Decoded(part: Part, size: nat)

  // The JSON decoder: the value a text begins with, and how many characters it takes.
  type Decoder = string -> Option<Decoded>

  ghost predicate Progresses(decode: Decoder) {
    forall s: string :: decode(s).Some? ==> 0 < decode(s).value.size <= |s|
  }

  predicate Separator(c: char) { c == ' ' || c == '\t' || c == '\n' || c == '\r' || c == ',' }

  function Skipped(s: string): (n: nat)
    ensures n <= |s| && (n < |s| ==> !Separator(s[n]))
  {
    if |s| > 0 && Separator(s[0]) then 1 + Skipped(s[1..]) else 0
  }

  function TextOf(p: Part): string { if p.TextPart? then p.text else "" }

  ghost function Extracted(s: string, decode: Decoder): string
    requires Progresses(decode)
    decreases |s|
  {
    var t := s[Skipped(s)..];
    if |t| == 0 then ""
    else if decode(t).Some? then TextOf(decode(t).value.part) + Extracted(t[decode(t).value.size..], decode)
    else Extracted(t[Resync(START, t)..], decode)
  }

  // ------------------------------------------------------------------ objects and debris

  // A segment between two of the joining commas.
  datatype Segment = Good(json: string, part: Part) | Malformed(json: string)

  // A whole JSON object is decoded whatever follows it.
  ghost predicate IsObject(decode: Decoder, json: string, part: Part) {
    && |json| > 0 && !Separator(json[0])
    && forall r: string :: decode(json + r) == Some(Decoded(part, |json|))
  }

  // Debris: no value starts there, whether it is the last segment or not.
  ghost predicate IsDebris(decode: Decoder, json: string) {
    && |json| > 0 && !Separator(json[0]) && decode(json).None?
    && forall r: string :: decode(json + ([','] + r)).None?
  }

  // Its quotes are closed, its braces balanced, and it holds no separating comma.
  predicate SelfContained(json: string) {
    TopLevel(Scanned(START, json)) && forall k :: 0 <= k < |json| ==> !TopComma(json, k)
  }

  ghost predicate Fits(decode: Decoder, g: Segment) {
    match g
    case Good(json, part) => IsObject(decode, json, part)
    case Malformed(json) => IsDebris(decode, json) && SelfContained(json)
  }

  function Joined(segments: seq<Segment>): string {
    if |segments| == 0 then ""
    else if |segments| == 1 then segments[0].json
    else segments[0].json + ([','] + Joined(segments[1..]))
  }

  // The texts of the text objects, in order.
  function Texts(segments: seq<Segment>): string {
    if |segments| == 0 then ""
    else
      (match segments[0]
       case Good(_, TextPart(text)) => text
       case _ => "")
      + Texts(segments[1..])
  }

  lemma {:induction false} ScannedConcat(st: Scan, a: string, b: string)
    ensures Scanned(st, a + b) == Scanned(Scanned(st, a), b)
    decreases |a|
  {
    if |a| == 0 {
      assert a + b == b;
    } else {
      assert (a + b)[1..] == a[1..] + b;
      ScannedConcat(Step(st, a[0]), a[1..], b);
    }
  }

  lemma CommaAfter(json: string, r: string)
    ensures forall k: nat :: k < |json| ==> (TopComma(json + ([','] + r), k) <==> TopComma(json, k))
    ensures TopComma(json + ([','] + r), |json|) <==> TopLevel(Scanned(START, json))
  {
    hide Scanned;
    var s := json + ([','] + r);
    assert s[..|json|] == json;
    forall k: nat | k < |json| ensures TopComma(s, k) <==> TopComma(json, k) {
      assert s[..k] == json[..k];
    }
  }

  // When more follows, the scan of a malformed segment stops right behind its comma exactly
  // when the segment is self-contained.
  lemma {:induction false} ResyncLands(json: string, r: string)
    ensures SelfContained(json) ==> Resync(START, json + ([','] + r)) == |json| + 1
    ensures |r| > 0 && Resync(START, json + ([','] + r)) == |json| + 1 ==> SelfContained(json)
  {
    hide Resync, Scanned, TopComma;
    CommaAfter(json, r);
    ResyncIsFirstTopComma(json + ([','] + r));
  }

  lemma ResyncAtEnd(json: string)
    requires |json| > 0 && SelfContained(json)
    ensures Resync(START, json) == |json|
  {
    hide Resync, Scanned;
    ResyncIsFirstTopComma(json);
  }

  lemma ExtractNothing(decode: Decoder)
    requires Progresses(decode)
    ensures Extracted("", decode) == ""
  {
  }

  lemma SkipsNothing(s: string)
    requires |s| > 0 && !Separator(s[0])
    ensures Skipped(s) == 0 && s[0..] == s
  {
  }

  lemma SkipsComma(s: string, decode: Decoder)
    requires Progresses(decode)
    ensures Extracted([','] + s, decode) == Extracted(s, decode)
  {
    assert ([','] + s)[1..] == s;
    assert ([','] + s)[1 + Skipped(s)..] == s[Skipped(s)..];
  }

  // What is extracted from an object followed by r, and from debris followed by a comma and r.
  lemma {:induction false} ExtractOne(decode: Decoder, g: Segment, r: string)
    requires Progresses(decode) && Fits(decode, g)
    ensures g.Good? ==> Extracted(g.json + r, decode) == TextOf(g.part) + Extracted(r, decode)
    ensures g.Malformed? ==> Extracted(g.json + ([','] + r), decode) == Extracted(r, decode)
    ensures g.Malformed? ==> Extracted(g.json, decode) == ""
  {
    hide SelfContained, Scanned;
    match g {
      case Good(json, part) =>
        var s := json + r;
        SkipsNothing(s);
        assert s[|json|..] == r;
      case Malformed(json) =>
        var s := json + ([','] + r);
        SkipsNothing(s);
        SkipsNothing(json);
        ResyncLands(json, r);
        ResyncAtEnd(json);
        assert s[|json| + 1..] == r && json[|json|..] == "";
        assert decode(s).None?;
    }
  }

  // The texts of the objects come out in order, and malformed segments that are
  // self-contained change nothing.
  lemma {:induction false} ExtractsTheTexts(decode: Decoder, segments: seq<Segment>)
    requires Progresses(decode) && forall g :: g in segments ==> Fits(decode, g)
    ensures Extracted(Joined(segments), decode) == Texts(segments)
  {
    hide Fits, Extracted;
    if |segments| == 0 {
      ExtractNothing(decode);
    } else {
      var g, rest := segments[0], segments[1..];
      assert g in segments;
      ExtractNothing(decode);
      if |rest| == 0 {
        ExtractOne(decode, g, "");
        assert g.json + "" == g.json;
      } else {
        ExtractsTheTexts(decode, rest);
        SkipsComma(Joined(rest), decode);
        ExtractOne(decode, g, if g.Good? then [','] + Joined(rest) else Joined(rest));
      }
    }
  }

  // --------------------------------------------------- which segments are self-contained

  // The text inside a JSON string: a quote or a backslash only after a backslash.
  predicate StringBody(s: string)
    decreases |s|
  {
    |s| == 0
    || (s[0] == '\\' && |s| >= 2 && StringBody(s[2..]))
    || (s[0] != '\\' && s[0] != '"' && StringBody(s[1..]))
  }

  lemma StringsLookLike()
    ensures StringBody(['\\', '"']) && StringBody(['a', '{', '\\', '\\']) && StringBody([])
    ensures !StringBody(['"']) && !StringBody(['\\']) && !StringBody(['\\', '\\', '"'])
  {
    assert ['\\', '\\', '"'][2..] == ['"'] && ['a', '{', '\\', '\\'][1..] == ['{', '\\', '\\'];
    assert ['{', '\\', '\\'][1..] == ['\\', '\\'] && ['\\', '\\'][2..] == [];
    assert ['\\', '"'][2..] == [];
  }

  // Text in which quotes and braces come in pairs, as in any JSON value, however it is spaced:
  // single characters, strings, and such text in braces.
  datatype Chunk = Plain(c: char) | InQuotes(body: string) | InBraces(inner: seq<Chunk>)

  predicate Balanced(chunks: seq<Chunk>)
    decreases chunks
  {
    |chunks| > 0 ==>
      && (match chunks[0]
          case Plain(c) => c != '"' && c != '{' && c != '}'
          case InQuotes(body) => StringBody(body)
          case InBraces(inner) => Balanced(inner))
      && Balanced(chunks[1..])
  }

  function Show(chunks: seq<Chunk>): string
    decreases chunks
  {
    if |chunks| == 0 then ""
    else
      (match chunks[0]
       case Plain(c) => [c]
       case InQuotes(body) => ['"'] + (body + ['"'])
       case InBraces(inner) => ['{'] + (Show(inner) + ['}']))
      + Show(chunks[1..])
  }

  // Scanning s from st passes no separating comma and ends in the state `last`.
  predicate Passes(st: Scan, s: string, last: Scan)
    decreases |s|
  {
    if |s| == 0 then st == last
    else !(s[0] == ',' && TopLevel(st)) && Passes(Step(st, s[0]), s[1..], last)
  }

  lemma {:induction false} PassesOn(st: Scan, a: string, mid: Scan, b: string, last: Scan)
    requires Passes(st, a, mid) && Passes(mid, b, last)
    ensures Passes(st, a + b, last)
    decreases |a|
  {
    if |a| == 0 {
      assert a + b == b;
    } else {
      assert (a + b)[1..] == a[1..] + b;
      PassesOn(Step(st, a[0]), a[1..], mid, b, last);
    }
  }

  lemma {:induction false} PassedMeans(st: Scan, s: string, last: Scan)
    requires Passes(st, s, last)
    ensures Scanned(st, s) == last
    ensures forall k :: 0 <= k < |s| ==> !(s[k] == ',' && TopLevel(Scanned(st, s[..k])))
    decreases |s|
  {
    if |s| > 0 {
      PassedMeans(Step(st, s[0]), s[1..], last);
      forall k | 0 <= k < |s| ensures !(s[k] == ',' && TopLevel(Scanned(st, s[..k]))) {
        if k > 0 {
          assert s[..k][0] == s[0] && s[..k][1..] == s[1..][..k - 1];
        } else {
          assert s[..0] == "";
        }
      }
    }
  }

  lemma OneChar(st: Scan, c: char)
    ensures !(c == ',' && TopLevel(st)) ==> Passes(st, [c], Step(st, c))
  {
    assert [c][1..] == "";
  }

  // A string's text leaves the scan inside the string.
  lemma {:induction false} BodyPasses(body: string, depth: nat)
    requires StringBody(body)
    ensures Passes(Scan(true, false, depth), body, Scan(true, false, depth))
    decreases |body|
  {
    if |body| > 0 && body[0] == '\\' {
      BodyPasses(body[2..], depth);
      assert body[1..][1..] == body[2..];
    } else if |body| > 0 {
      BodyPasses(body[1..], depth);
    }
  }

  lemma {:induction false} StringPasses(body: string, depth: nat)
    requires StringBody(body)
    ensures Passes(Scan(false, false, depth), ['"'] + (body + ['"']), Scan(false, false, depth))
  {
    hide Passes, StringBody;
    var out, inside := Scan(false, false, depth), Scan(true, false, depth);
    OneChar(out, '"');
    OneChar(inside, '"');
    BodyPasses(body, depth);
    PassesOn(inside, body, inside, ['"'], out);
    PassesOn(out, ['"'], inside, body + ['"'], out);
  }

  // Inside braces balanced text passes whatever commas it has.
  lemma {:induction false} BalancedPasses(chunks: seq<Chunk>, depth: nat)
    requires Balanced(chunks) && depth > 0
    ensures Passes(Scan(false, false, depth), Show(chunks), Scan(false, false, depth))
    decreases chunks, 0
  {
    hide Passes, StringBody;
    var out := Scan(false, false, depth);
    if |chunks| == 0 {
      NothingPasses(out);
    } else {
      BalancedPasses(chunks[1..], depth);
      match chunks[0] {
        case Plain(c) =>
          OneChar(out, c);
          PassesOn(out, [c], out, Show(chunks[1..]), out);
        case InQuotes(body) =>
          StringPasses(body, depth);
          PassesOn(out, ['"'] + (body + ['"']), out, Show(chunks[1..]), out);
        case InBraces(inner) =>
          BracesPass(inner, depth);
          PassesOn(out, ['{'] + (Show(inner) + ['}']), out, Show(chunks[1..]), out);
      }
    }
  }

  lemma NothingPasses(st: Scan)
    ensures Passes(st, "", st)
  {
  }

  lemma {:induction false} BracesPass(inner: seq<Chunk>, depth: nat)
    requires Balanced(inner)
    ensures Passes(Scan(false, false, depth), ['{'] + (Show(inner) + ['}']), Scan(false, false, depth))
    decreases inner, 1
  {
    hide Passes, Show, Balanced;
    var out, inside := Scan(false, false, depth), Scan(false, false, depth + 1);
    BalancedPasses(inner, depth + 1);
    OneChar(out, '{');
    OneChar(inside, '}');
    PassesOn(inside, Show(inner), inside, ['}'], out);
    PassesOn(out, ['{'], inside, Show(inner) + ['}'], out);
  }

  // So any object whose quotes and braces come in pairs is self-contained, with all the commas,
  // quotes and braces that its strings hold; and so is a string.
  lemma {:induction false} ObjectsAreSelfContained(inner: seq<Chunk>, body: string)
    ensures Balanced(inner) ==> SelfContained(['{'] + (Show(inner) + ['}']))
    ensures StringBody(body) ==> SelfContained(['"'] + (body + ['"']))
  {
    hide Passes, Scanned, Balanced, StringBody, Show;
    if Balanced(inner) {
      BracesPass(inner, 0);
      PassedMeans(START, ['{'] + (Show(inner) + ['}']), START);
    }
    if StringBody(body) {
      StringPasses(body, 0);
      PassedMeans(START, ['"'] + (body + ['"']), START);
    }
  }

  // Debris with an open brace or quote is not, nor is text with a comma of its own.
  lemma OpenOnesAreNot()
    ensures !SelfContained(['{']) && !SelfContained(['"']) && !SelfContained(['a', ','])
    ensures !SelfContained(['"', '\\', '"']) && SelfContained(['}']) && SelfContained(['\\'])
  {
    hide Scanned;
    ScannedFew('{', '{', '{');
    ScannedFew('}', '}', '}');
    ScannedFew('\\', '\\', '\\');
    ScannedFew('a', ',', ',');
    ScannedFew('"', '\\', '"');
    assert ['a', ','][..1] == ['a'] && TopComma(['a', ','], 1);
  }

  lemma ScannedFew(a: char, b: char, c: char)
    ensures Scanned(START, [a]) == Step(START, a)
    ensures Scanned(START, [a, b, c]) == Step(Step(Step(START, a), b), c)
  {
    hide Step;
    assert [] + [a] == [a] && [a] + [b] == [a, b] && [a, b] + [c] == [a, b, c];
    ScannedSnoc(START, [], a);
    ScannedSnoc(START, [a], b);
    ScannedSnoc(START, [a, b], c);
  }

  // White space and commas between values are skipped.
  lemma {:induction false} SeparatorsAreSkipped(between: string, s: string, decode: Decoder)
    requires Progresses(decode) && forall i :: 0 <= i < |between| ==> between[i] in {' ', '\t', '\n', '\r', ','}
    ensures Extracted(between + s, decode) == Extracted(s, decode)
    decreases |between|
  {
    hide Extracted, Progresses;
    if |between| == 0 {
      assert between + s == s;
    } else {
      assert between + s == [between[0]] + (between[1..] + s);
      SkipsOne(between[0], between[1..] + s, decode);
      SeparatorsAreSkipped(between[1..], s, decode);
    }
  }

  lemma SkipsOne(c: char, s: string, decode: Decoder)
    requires Progresses(decode) && c in {' ', '\t', '\n', '\r', ','}
    ensures Extracted([c] + s, decode) == Extracted(s, decode)
  {
    hide Extracted, Progresses;
    assert ([c] + s)[1..] == s;
    assert ([c] + s)[1 + Skipped(s)..] == s[Skipped(s)..];
    ExtractedUnfolds([c] + s, s[Skipped(s)..], decode);
    ExtractedUnfolds(s, s[Skipped(s)..], decode);
  }

  lemma ExtractedUnfolds(s: string, t: string, decode: Decoder)
    requires Progresses(decode) && t == s[Skipped(s)..]
    ensures decode(t).Some? ==> decode(t).value.size <= |t|
    ensures Extracted(s, decode)
            == if |t| == 0 then ""
               else if decode(t).Some?
               then TextOf(decode(t).value.part) + Extracted(t[decode(t).value.size..], decode)
               else Extracted(t[Resync(START, t)..], decode)
  {
    hide Resync, TextOf, Skipped;
  }

  // ------------------------------------------------------------------------ the loops

  method NextObjectStart(s: string, from: nat) returns (next: nat)
    requires from <= |s|
    ensures next == from + Resync(START, s[from..])
    ensures from < |s| ==> from < next <= |s|
  {
    hide Step;
    var inString, escaped, depth := false, false, 0;
    var i := from;
    ResyncUnfolds(START, s, from);
    while i < |s|
      invariant from <= i <= |s| && depth >= 0
      invariant i + Resync(Scan(inString, escaped, depth), s[i..]) == from + Resync(START, s[from..])
    {
      var c := s[i];
      ResyncUnfolds(Scan(inString, escaped, depth), s, i);
      StepUnfolds(inString, escaped, depth, c);
      if inString {
        if escaped {
          escaped := false;
        } else if c == '\\' {
          escaped := true;
        } else if c == '"' {
          inString := false;
        }
      } else {
        if c == '"' {
          inString := true;
        } else if c == '{' {
          depth := depth + 1;
        } else if c == '}' {
          if depth > 0 {
            depth := depth - 1;
          }
        } else if c == ',' && depth == 0 {
          return i + 1;
        }
      }
      i := i + 1;
    }
    return |s|;
  }

  lemma ResyncUnfolds(st: Scan, s: string, i: nat)
    requires i <= |s|
    ensures i < |s| ==>
              Resync(st, s[i..]) == if s[i] == ',' && TopLevel(st) then 1 else 1 + Resync(Step(st, s[i]), s[i + 1..])
  {
    if i < |s| {
      assert s[i..][1..] == s[i + 1..];
    }
  }

  lemma StepUnfolds(inString: bool, escaped: bool, depth: nat, c: char)
    ensures Step(Scan(inString, escaped, depth), c) ==
            if inString then Scan(!(c == '"' && !escaped), !escaped && c == '\\', depth)
            else Scan(c == '"', escaped,
                      if c == '{' then depth + 1 else if c == '}' && depth > 0 then depth - 1 else depth)
  {
  }

  function JoinedTexts(texts: seq<string>): string {
    if |texts| == 0 then "" else JoinedTexts(texts[..|texts| - 1]) + texts[|texts| - 1]
  }

  lemma ExtractHere(t: string, decode: Decoder)
    requires Progresses(decode) && |t| > 0 && !Separator(t[0])
    ensures decode(t).Some? ==> 0 < decode(t).value.size <= |t|
    ensures decode(t).Some? ==>
              Extracted(t, decode) == TextOf(decode(t).value.part) + Extracted(t[decode(t).value.size..], decode)
    ensures decode(t).None? ==> Extracted(t, decode) == Extracted(t[Resync(START, t)..], decode)
  {
    hide Resync, TextOf;
    SkipsNothing(t);
  }

  // One round of the source's loop, as a step from one position to the next.
  lemma {:induction false} ExtractFrom(s: string, decode: Decoder, i: nat)
    requires Progresses(decode) && i < |s| && !Separator(s[i])
    ensures var t, d := s[i..], decode(s[i..]);
            && (d.Some? ==> i < i + d.value.size <= |s| && Extracted(t, decode) ==
                            TextOf(d.value.part) + Extracted(s[i + d.value.size..], decode))
            && (d.None? ==> i + Resync(START, t) <= |s| && Extracted(t, decode) ==
                            Extracted(s[i + Resync(START, t)..], decode))
  {
    hide Extracted, Resync, TextOf, Progresses;
    var t := s[i..];
    ExtractHere(t, decode);
    var n := if decode(t).Some? then decode(t).value.size else Resync(START, t);
    assert t[n..] == s[i + n..];
  }

  lemma SkipOne(s: string, decode: Decoder, i: nat)
    requires Progresses(decode) && i < |s| && Separator(s[i])
    ensures Extracted(s[i..], decode) == Extracted(s[i + 1..], decode)
  {
    var t, u := s[i..], s[i + 1..];
    assert t[1..] == u;
    assert t[Skipped(t)..] == u[Skipped(u)..];
  }

  method ExtractPartsText(partsJson: string, decode: Decoder) returns (text: string)
    requires Progresses(decode)
    ensures text == Extracted(partsJson, decode)
  {
    hide Extracted, Resync, JoinedTexts, TextOf, Progresses, Separator;
    var texts: seq<string> := [];
    var idx := 0;
    assert partsJson[0..] == partsJson;
    NothingJoined();
    while idx < |partsJson|
      invariant idx <= |partsJson|
      invariant JoinedTexts(texts) + Extracted(partsJson[idx..], decode) == Extracted(partsJson, decode)
    {
      ghost var before := Extracted(partsJson[idx..], decode);
      while idx < |partsJson| && Separator(partsJson[idx])
        invariant idx <= |partsJson|
        invariant Extracted(partsJson[idx..], decode) == before
      {
        SkipOne(partsJson, decode, idx);
        idx := idx + 1;
      }
      if idx >= |partsJson| {
        break;
      }
      ExtractFrom(partsJson, decode, idx);
      var decoded := decode(partsJson[idx..]);
      if decoded.None? {
        var next := NextObjectStart(partsJson, idx);
        if next <= idx {
          break;
        }
        idx := next;
        continue;
      }
      idx := idx + decoded.value.size;
      JoinedSnoc(texts, decoded.value.part);
      if decoded.value.part.TextPart? {
        texts := texts + [decoded.value.part.text];
      }
    }
    assert partsJson[|partsJson|..] == "";
    ExtractNothing(decode);
    text := JoinedTexts(texts);
  }

  lemma NothingJoined()
    ensures JoinedTexts([]) == ""
  {
  }

  lemma JoinedSnoc(texts: seq<string>, p: Part)
    ensures TextOf(p) == if p.TextPart? then p.text else ""
    ensures p.TextPart? ==> JoinedTexts(texts + [p.text]) == JoinedTexts(texts) + p.text
  {
    assert p.TextPart? ==> (texts + [p.text])[..|texts|] == texts;
  }
}
