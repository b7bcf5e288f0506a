// The newline normaliser of a terminal whose output comes through a pipe, chunk by chunk.
module TerminalNewlines {
  import opened Bytes

  const CR: byte := 13
  const LF: byte := 10

  // ------------------------------------------------------------------ the one-pass form

  predicate EndsInCr(s: seq<byte>) { |s| > 0 && s[|s| - 1] == CR }

  // Puts a CR before each LF that has none. `afterCr`: what came before s ended in CR.
  function OnePass(s: seq<byte>, afterCr: bool): seq<byte> {
    if |s| == 0 then []
    else
      var front, b := s[..|s| - 1], s[|s| - 1];
      OnePass(front, afterCr) + (if b == LF && !CrBefore(front, afterCr) then [CR, LF] else [b])
  }

  predicate CrBefore(s: seq<byte>, afterCr: bool) { if |s| == 0 then afterCr else s[|s| - 1] == CR }

  lemma OnePassSnoc(s: seq<byte>, b: byte, afterCr: bool)
    ensures OnePass(s + [b], afterCr)
            == OnePass(s, afterCr) + (if b == LF && !CrBefore(s, afterCr) then [CR, LF] else [b])
  {
    assert (s + [b])[..|s|] == s;
  }

  lemma NothingToPass(afterCr: bool)
    ensures OnePass([], afterCr) == [] && CrBefore([], afterCr) == afterCr
  {
  }

  lemma CrBeforeConcat(a: seq<byte>, b: seq<byte>, afterCr: bool)
    ensures CrBefore(a + b, afterCr) == CrBefore(b, CrBefore(a, afterCr))
  {
    if |b| == 0 {
      assert a + b == a;
    }
  }

  lemma {:induction false} OnePassConcat(a: seq<byte>, b: seq<byte>, afterCr: bool)
    ensures OnePass(a + b, afterCr) == OnePass(a, afterCr) + OnePass(b, CrBefore(a, afterCr))
  {
    hide OnePass, CrBefore;
    if |b| == 0 {
      assert a + b == a;
      NothingToPass(CrBefore(a, afterCr));
    } else {
      var front, last := b[..|b| - 1], b[|b| - 1];
      OnePassConcat(a, front, afterCr);
      assert a + b == (a + front) + [last] && b == front + [last];
      OnePassSnoc(a + front, last, afterCr);
      OnePassSnoc(front, last, CrBefore(a, afterCr));
      CrBeforeConcat(a, front, afterCr);
    }
  }

  predicate EveryLfHasItsCr(s: seq<byte>, afterCr: bool) {
    forall i :: 0 <= i < |s| && s[i] == LF ==> CrBefore(s[..i], afterCr)
  }

  lemma {:induction false} OnePassGivesEachLfItsCr(s: seq<byte>, afterCr: bool)
    ensures EveryLfHasItsCr(OnePass(s, afterCr), afterCr)
    ensures CrBefore(OnePass(s, afterCr), afterCr) == CrBefore(s, afterCr)
  {
    if |s| > 0 {
      var front, b := s[..|s| - 1], s[|s| - 1];
      OnePassGivesEachLfItsCr(front, afterCr);
      var done, out := OnePass(front, afterCr), OnePass(s, afterCr);
      forall i | 0 <= i < |out| && out[i] == LF ensures CrBefore(out[..i], afterCr) {
        if i < |done| {
          assert out[..i] == done[..i];
        } else if i == |done| {
          assert out[..i] == done;
        } else {
          assert out[i - 1] == CR;
        }
      }
    }
  }

  lemma EveryLfSnoc(s: seq<byte>, b: byte, afterCr: bool)
    ensures EveryLfHasItsCr(s + [b], afterCr)
            <==> EveryLfHasItsCr(s, afterCr) && (b == LF ==> CrBefore(s, afterCr))
  {
    hide CrBefore;
    var t := s + [b];
    assert forall i :: 0 <= i <= |s| ==> t[..i] == s[..i];
    assert s[..|s|] == s && t[|s|] == b;
  }

  // What is already in that form is left alone, and nothing else is.
  lemma {:induction false} OnePassFixpoints(s: seq<byte>, afterCr: bool)
    ensures |OnePass(s, afterCr)| >= |s|
    ensures OnePass(s, afterCr) == s <==> EveryLfHasItsCr(s, afterCr)
  {
    hide OnePass, CrBefore, EveryLfHasItsCr;
    if |s| == 0 {
      NothingToPass(afterCr);
      NothingHasEvery(afterCr);
    } else {
      var front, b := s[..|s| - 1], s[|s| - 1];
      assert s == front + [b];
      OnePassFixpoints(front, afterCr);
      OnePassSnoc(front, b, afterCr);
      EveryLfSnoc(front, b, afterCr);
    }
  }

  lemma NothingHasEvery(afterCr: bool)
    ensures EveryLfHasItsCr([], afterCr)
  {
  }

  lemma OnePassIdempotent(s: seq<byte>, afterCr: bool)
    ensures OnePass(OnePass(s, afterCr), afterCr) == OnePass(s, afterCr)
  {
    OnePassGivesEachLfItsCr(s, afterCr);
    OnePassFixpoints(OnePass(s, afterCr), afterCr);
  }

  // The stream with every CR LF as a plain LF.
  function Plain(s: seq<byte>): seq<byte> {
    if |s| == 0 then []
    else if |s| >= 2 && s[|s| - 2] == 13 && s[|s| - 1] == 10 then Plain(s[..|s| - 2]) + [10]
    else Plain(s[..|s| - 1]) + [s[|s| - 1]]
  }

  lemma PlainSnoc(s: seq<byte>, b: byte)
    requires !(b == 10 && |s| > 0 && s[|s| - 1] == 13)
    ensures Plain(s + [b]) == Plain(s) + [b]
  {
    assert (s + [b])[..|s|] == s;
  }

  lemma PlainPair(s: seq<byte>)
    ensures Plain(s + [13, 10]) == Plain(s) + [10]
  {
    var t := s + [13, 10];
    assert t[..|t| - 2] == s && t[|t| - 2] == 13 && t[|t| - 1] == 10;
  }

  // Nothing else is added, and nothing is lost or moved.
  lemma {:induction false} OnePassKeepsTheRest(s: seq<byte>, afterCr: bool)
    ensures Plain(OnePass(s, afterCr)) == Plain(s)
  {
    hide Plain, OnePass;
    if |s| == 0 {
      NothingToPass(afterCr);
    } else {
      var front, b := s[..|s| - 1], s[|s| - 1];
      assert s == front + [b];
      OnePassKeepsTheRest(front, afterCr);
      OnePassSnoc(front, b, afterCr);
      if b == LF && |front| > 0 && front[|front| - 1] == CR {
        var base := front[..|front| - 1];
        assert front == base + [CR] && s == base + [CR, LF];
        OnePassKeepsTheRest(base, afterCr);
        OnePassSnoc(base, CR, afterCr);
        assert OnePass(s, afterCr) == OnePass(base, afterCr) + [CR, LF];
        PlainPair(base);
        PlainPair(OnePass(base, afterCr));
      } else if b == LF && CrBefore(front, afterCr) {
        assert front == [];
        NothingToPass(afterCr);
        PlainSnoc([], b);
        assert OnePass(s, afterCr) == [] + [b];
      } else if b == LF {
        PlainSnoc(front, b);
        PlainPair(OnePass(front, afterCr));
      } else {
        OnePassGivesEachLfItsCr(front, afterCr);
        PlainSnoc(front, b);
        PlainSnoc(OnePass(front, afterCr), b);
      }
    }
  }

  // --------------------------------------------------------------- one chunk, byte by byte

  // The flag after the first i bytes of a chunk that began with the flag at `flag`.
  function FlagAt(flag: bool, data: seq<byte>, i: nat): bool
    requires i <= |data|
  {
    if i == 0 then flag
    else
      var b, before := data[i - 1], FlagAt(flag, data, i - 1);
      if b == LF then (i > 1 && data[i - 2] == CR && before)
      else if b == CR then (if i < |data| then data[i] == LF && before else true)
      else false
  }

  // An LF that is passed on as it is.
  predicate Kept(flag: bool, data: seq<byte>, i: nat)
    requires i < |data|
  {
    (i > 0 && data[i - 1] == CR) || FlagAt(flag, data, i)
  }

  function Emitted(flag: bool, data: seq<byte>, i: nat): seq<byte>
    requires i <= |data|
  {
    if i == 0 then []
    else
      Emitted(flag, data, i - 1)
      + (if data[i - 1] == LF && !Kept(flag, data, i - 1) then [CR, LF] else [data[i - 1]])
  }

  function Normalized(flag: bool, data: seq<byte>): seq<byte> { Emitted(flag, data, |data|) }

  function FlagAfter(flag: bool, data: seq<byte>): bool { FlagAt(flag, data, |data|) }

  // --------------------------------------------------------------- when the flag is stale

  // How many times CR LF a chunk begins with.
  function Pairs(data: seq<byte>): (m: nat)
    ensures 2 * m <= |data|
  {
    if |data| >= 2 && data[0] == CR && data[1] == LF then 1 + Pairs(data[2..]) else 0
  }

  predicate OnlyPairs(data: seq<byte>) { |data| == 2 * Pairs(data) }

  // The chunk begins with CR LF some number of times, and then with an LF of its own.
  predicate LfAfterPairs(data: seq<byte>) { 2 * Pairs(data) < |data| && data[2 * Pairs(data)] == LF }

  // Such an LF is passed on without the CR it needs when the flag is still up, unless it is
  // the second half of a CR LF that the chunks split.
  predicate Misses(flag: bool, afterCr: bool, data: seq<byte>) {
    flag && LfAfterPairs(data) && (Pairs(data) > 0 || !afterCr)
  }

  predicate Alternates(data: seq<byte>, i: nat)
    requires i <= |data|
  {
    forall k :: 0 <= k < i ==> data[k] == if k % 2 == 0 then CR else LF
  }

  lemma {:induction false} PairsAlternate(data: seq<byte>)
    ensures Alternates(data, 2 * Pairs(data))
    ensures var n := 2 * Pairs(data); n + 1 < |data| ==> !(data[n] == CR && data[n + 1] == LF)
  {
    if |data| >= 2 && data[0] == CR && data[1] == LF {
      PairsAlternate(data[2..]);
      var n := 2 * Pairs(data);
      forall k | 0 <= k < n ensures data[k] == if k % 2 == 0 then CR else LF {
        if k >= 2 {
          assert data[k] == data[2..][k - 2];
        }
      }
    }
  }

  // Inside a chunk the flag is up only when it was up at its start and nothing but whole
  // CR LF has been seen since.
  lemma {:induction false} FlagInside(flag: bool, data: seq<byte>, i: nat)
    requires i < |data|
    ensures FlagAt(flag, data, i) <==> flag && Alternates(data, i) && (i % 2 == 1 ==> data[i] == LF)
  {
    if i > 0 {
      FlagInside(flag, data, i - 1);
    }
  }

  lemma FlagAtLoneLf(flag: bool, data: seq<byte>, i: nat)
    requires i < |data| && data[i] == LF && (i > 0 ==> data[i - 1] != CR)
    ensures FlagAt(flag, data, i) <==> flag && i == 2 * Pairs(data)
    ensures i == 0 ==> FlagAt(flag, data, i) == flag
  {
    FlagInside(flag, data, i);
    PairsAlternate(data);
  }

  // The flag a chunk leaves behind.
  lemma FlagLeft(flag: bool, data: seq<byte>)
    ensures FlagAfter(flag, data) <==> EndsInCr(data) || (flag && OnlyPairs(data))
  {
    PairsAlternate(data);
    var n := |data|;
    if n > 0 {
      FlagInside(flag, data, n - 1);
    }
  }

  predicate LoneLf(data: seq<byte>, i: nat)
    requires i < |data|
  {
    data[i] == LF && (i > 0 ==> data[i - 1] != CR)
  }

  // What byte i turns into, in the chunk and in one pass.
  lemma OneByte(flag: bool, afterCr: bool, data: seq<byte>, i: nat)
    requires i < |data|
    ensures Emitted(flag, data, i + 1)
            == Emitted(flag, data, i) + (if LoneLf(data, i) && !FlagAt(flag, data, i) then [CR, LF] else [data[i]])
    ensures OnePass(data[..i + 1], afterCr)
            == OnePass(data[..i], afterCr) + (if LoneLf(data, i) && !(i == 0 && afterCr) then [CR, LF] else [data[i]])
  {
    hide OnePass, FlagAt;
    assert data[..i + 1] == data[..i] + [data[i]];
    OnePassSnoc(data[..i], data[i], afterCr);
  }

  // The LF that is missed is a lone one.
  lemma MissedIsLone(flag: bool, afterCr: bool, data: seq<byte>)
    requires Misses(flag, afterCr, data)
    ensures LoneLf(data, 2 * Pairs(data))
  {
    PairsAlternate(data);
  }

  // Byte by byte, the chunk and the one pass differ in that one LF only.
  lemma {:induction false} EmittedVersusOnePass(flag: bool, afterCr: bool, data: seq<byte>, i: nat)
    requires i <= |data| && (afterCr ==> flag)
    ensures var missed := Misses(flag, afterCr, data) && 2 * Pairs(data) < i;
            && |OnePass(data[..i], afterCr)| == |Emitted(flag, data, i)| + (if missed then 1 else 0)
            && (!missed ==> Emitted(flag, data, i) == OnePass(data[..i], afterCr))
  {
    hide OnePass, Emitted, FlagAt, Pairs;
    if i == 0 {
      NothingEmitted(flag, afterCr, data);
    } else {
      EmittedVersusOnePass(flag, afterCr, data, i - 1);
      OneByte(flag, afterCr, data, i - 1);
      if LoneLf(data, i - 1) {
        FlagAtLoneLf(flag, data, i - 1);
      } else if Misses(flag, afterCr, data) {
        MissedIsLone(flag, afterCr, data);
      }
    }
  }

  lemma NothingEmitted(flag: bool, afterCr: bool, data: seq<byte>)
    ensures Emitted(flag, data, 0) == [] && OnePass(data[..0], afterCr) == []
  {
  }

  // ------------------------------------------------------------------- a stream of chunks

  function Joined(chunks: seq<seq<byte>>): seq<byte> {
    if |chunks| == 0 then [] else Joined(chunks[..|chunks| - 1]) + chunks[|chunks| - 1]
  }

  function FlagOver(chunks: seq<seq<byte>>): bool {
    if |chunks| == 0 then false else FlagAfter(FlagOver(chunks[..|chunks| - 1]), chunks[|chunks| - 1])
  }

  // What a fresh normaliser makes of the chunks, joined.
  function Relayed(chunks: seq<seq<byte>>): seq<byte> {
    if |chunks| == 0 then []
    else
      var front := chunks[..|chunks| - 1];
      Relayed(front) + Normalized(FlagOver(front), chunks[|chunks| - 1])
  }

  // How many LFs go out without their CR.
  function Missed(chunks: seq<seq<byte>>): nat {
    if |chunks| == 0 then 0
    else
      var front := chunks[..|chunks| - 1];
      Missed(front) + (if Misses(FlagOver(front), EndsInCr(Joined(front)), chunks[|chunks| - 1]) then 1 else 0)
  }

  // The flag invariant, and what it gives: the flag is up whenever the stream so far ends in
  // CR, and the relayed stream is the one-pass stream less one CR for each LF missed.
  lemma {:induction false} RelayedVersusOnePass(chunks: seq<seq<byte>>)
    ensures EndsInCr(Joined(chunks)) ==> FlagOver(chunks)
    ensures |OnePass(Joined(chunks), false)| == |Relayed(chunks)| + Missed(chunks)
    ensures Missed(chunks) == 0 ==> Relayed(chunks) == OnePass(Joined(chunks), false)
  {
    hide OnePass, Emitted, FlagAt, FlagAfter, Misses, Pairs;
    if |chunks| == 0 {
      NothingToPass(false);
    } else {
      var front, data := chunks[..|chunks| - 1], chunks[|chunks| - 1];
      RelayedVersusOnePass(front);
      OnePassConcat(Joined(front), data, false);
      CrBeforeConcat(Joined(front), data, false);
      FlagLeft(FlagOver(front), data);
      WholeChunk(FlagOver(front), EndsInCr(Joined(front)), data);
    }
  }

  lemma WholeChunk(flag: bool, afterCr: bool, data: seq<byte>)
    requires afterCr ==> flag
    ensures var missed := Misses(flag, afterCr, data);
            && |OnePass(data, afterCr)| == |Normalized(flag, data)| + (if missed then 1 else 0)
            && (!missed ==> Normalized(flag, data) == OnePass(data, afterCr))
    ensures |data| == 0 && flag ==> FlagAfter(flag, data)
  {
    EmittedVersusOnePass(flag, afterCr, data, |data|);
    assert data[..|data|] == data;
  }

  // --------------------------------------------------- the split that leaves the flag stale

  predicate AllPairs(chunks: seq<seq<byte>>, from: nat, to: nat)
    requires from <= to <= |chunks|
  {
    forall k :: from <= k < to ==> OnlyPairs(chunks[k])
  }

  predicate AllEmpty(chunks: seq<seq<byte>>, from: nat, to: nat)
    requires from <= to <= |chunks|
  {
    forall k :: from <= k < to ==> chunks[k] == []
  }

  // Chunk i ends in CR; what follows up to the LF in chunk j is CR LF, at least once, and no
  // CR LF is split.
  predicate StaleFrom(chunks: seq<seq<byte>>, i: nat, j: nat) {
    && i < j < |chunks|
    && EndsInCr(chunks[i]) && AllPairs(chunks, i + 1, j) && LfAfterPairs(chunks[j])
    && (Pairs(chunks[j]) > 0 || !AllEmpty(chunks, i + 1, j))
  }

  ghost predicate StaleSplit(chunks: seq<seq<byte>>) { exists i, j :: StaleFrom(chunks, i, j) }

  lemma PairsEndInLf(data: seq<byte>)
    requires OnlyPairs(data)
    ensures EndsInCr(data) ==> false
    ensures data == [] <==> Pairs(data) == 0
  {
    PairsAlternate(data);
  }

  lemma JoinedEnds(front: seq<byte>, data: seq<byte>)
    ensures EndsInCr(front + data) <==> if data == [] then EndsInCr(front) else EndsInCr(data)
  {
    if data == [] {
      assert front + data == front;
    }
  }

  // Where a flag that is up comes from.
  lemma {:induction false} FlagComesFrom(chunks: seq<seq<byte>>) returns (i: nat)
    requires FlagOver(chunks)
    ensures i < |chunks| && EndsInCr(chunks[i]) && AllPairs(chunks, i + 1, |chunks|)
  {
    hide FlagAfter, Pairs, EndsInCr, OnlyPairs;
    var n := |chunks| - 1;
    FlagLeft(FlagOver(chunks[..n]), chunks[n]);
    if EndsInCr(chunks[n]) {
      i := n;
    } else {
      i := FlagComesFrom(chunks[..n]);
      forall k | i + 1 <= k < |chunks| ensures OnlyPairs(chunks[k]) {
        if k < n {
          assert chunks[k] == chunks[..n][k];
        }
      }
    }
  }

  lemma {:induction false} FlagStaysUp(chunks: seq<seq<byte>>, i: nat)
    requires i < |chunks| && EndsInCr(chunks[i]) && AllPairs(chunks, i + 1, |chunks|)
    ensures FlagOver(chunks)
    ensures EndsInCr(Joined(chunks)) <==> AllEmpty(chunks, i + 1, |chunks|)
  {
    hide FlagAfter, Pairs, EndsInCr, OnlyPairs;
    var n := |chunks| - 1;
    var front, data := chunks[..n], chunks[n];
    FlagLeft(FlagOver(front), data);
    JoinedEnds(Joined(front), data);
    if i < n {
      FlagStaysUp(front, i);
      PairsEndInLf(data);
      assert AllEmpty(chunks, i + 1, |chunks|) <==> AllEmpty(front, i + 1, n) && data == [] by {
        forall k | i + 1 <= k < n ensures chunks[k] == front[k] {
        }
      }
    } else {
      CrIsNotNothing(data);
    }
  }

  lemma CrIsNotNothing(data: seq<byte>)
    requires EndsInCr(data)
    ensures data != []
  {
  }

  // Chunk j misses a CR exactly when it ends a stale split.
  lemma StaleMisses(chunks: seq<seq<byte>>, i: nat, j: nat)
    requires i < j < |chunks| && EndsInCr(chunks[i]) && AllPairs(chunks, i + 1, j)
    ensures Misses(FlagOver(chunks[..j]), EndsInCr(Joined(chunks[..j])), chunks[j]) <==> StaleFrom(chunks, i, j)
  {
    hide FlagAfter, Pairs, EndsInCr, OnlyPairs;
    var front := chunks[..j];
    assert front[i] == chunks[i] && forall k :: i + 1 <= k < j ==> front[k] == chunks[k];
    FlagStaysUp(front, i);
  }

  lemma {:induction false} MissedMeansStale(chunks: seq<seq<byte>>) returns (i: nat, j: nat)
    requires Missed(chunks) > 0
    ensures StaleFrom(chunks, i, j)
  {
    hide FlagAfter, Misses, Pairs, EndsInCr, OnlyPairs, FlagOver, Joined;
    var n := |chunks| - 1;
    var front := chunks[..n];
    if Missed(front) > 0 {
      i, j := MissedMeansStale(front);
      forall k | 0 <= k < n ensures front[k] == chunks[k] {
      }
    } else {
      FlagIsUp(FlagOver(front), EndsInCr(Joined(front)), chunks[n]);
      i := FlagComesFrom(front);
      j := n;
      forall k | 0 <= k < n ensures front[k] == chunks[k] {
      }
      StaleMisses(chunks, i, j);
    }
  }

  lemma FlagIsUp(flag: bool, afterCr: bool, data: seq<byte>)
    requires Misses(flag, afterCr, data)
    ensures flag
  {
  }

  lemma {:induction false} StaleMeansMissed(chunks: seq<seq<byte>>, i: nat, j: nat)
    requires StaleFrom(chunks, i, j)
    ensures Missed(chunks) > 0
  {
    hide FlagAfter, Misses, Pairs, EndsInCr, OnlyPairs, FlagOver, Joined;
    var n := |chunks| - 1;
    if j == n {
      StaleMisses(chunks, i, j);
    } else {
      var front := chunks[..n];
      forall k | 0 <= k < n ensures front[k] == chunks[k] {
      }
      StaleMeansMissed(front, i, j);
    }
  }

  // The relayed output does not depend on where the stream was split, and equals the one-pass
  // output, exactly when no split leaves the flag stale.
  lemma SplitInvariance(chunks: seq<seq<byte>>)
    ensures Relayed(chunks) == OnePass(Joined(chunks), false) <==> !StaleSplit(chunks)
  {
    hide Relayed, OnePass, Joined, Missed, StaleFrom;
    RelayedVersusOnePass(chunks);
    if Missed(chunks) > 0 {
      var i, j := MissedMeansStale(chunks);
      assert |Relayed(chunks)| != |OnePass(Joined(chunks), false)|;
    }
    if StaleSplit(chunks) {
      var i, j :| StaleFrom(chunks, i, j);
      StaleMeansMissed(chunks, i, j);
      assert |Relayed(chunks)| != |OnePass(Joined(chunks), false)|;
    }
  }

  predicate BeginsWithPair(data: seq<byte>) { |data| >= 2 && data[0] == CR && data[1] == LF }

  // In particular when no chunk that ends in CR is followed, empty chunks aside, by one that
  // begins with CR LF.
  lemma {:induction false} UnlessPairFollowsCr(chunks: seq<seq<byte>>)
    requires forall i: nat, j: nat ::
               i < j < |chunks| && AllEmpty(chunks, i + 1, j) && EndsInCr(chunks[i]) ==> !BeginsWithPair(chunks[j])
    ensures Relayed(chunks) == OnePass(Joined(chunks), false)
  {
    hide Relayed, OnePass, Joined, Missed;
    SplitInvariance(chunks);
    if StaleSplit(chunks) {
      var i, j :| StaleFrom(chunks, i, j);
      var k := StaleBeginsWithPair(chunks, i, j);
      assert false;
    }
  }

  lemma StaleBeginsWithPair(chunks: seq<seq<byte>>, i: nat, j: nat) returns (k: nat)
    requires StaleFrom(chunks, i, j)
    ensures i < k < |chunks| && AllEmpty(chunks, i + 1, k) && EndsInCr(chunks[i]) && BeginsWithPair(chunks[k])
  {
    k := FirstNonEmpty(chunks, i + 1, j);
  }

  lemma {:induction false} FirstNonEmpty(chunks: seq<seq<byte>>, from: nat, to: nat) returns (k: nat)
    requires from <= to < |chunks|
    ensures from <= k <= to && AllEmpty(chunks, from, k) && (k < to ==> chunks[k] != [])
    decreases if from <= to then to - from else 0
  {
    if from == to || chunks[from] != [] {
      k := from;
    } else {
      k := FirstNonEmpty(chunks, from + 1, to);
    }
  }

  // The smallest split that is not covered: CR, then CR LF LF.
  lemma StaleExample()
    ensures var chunks := [[13], [13, 10, 10]]; Relayed(chunks) != OnePass(Joined(chunks), false)
  {
    hide Relayed, OnePass, Joined;
    var a: seq<byte>, b: seq<byte> := [CR], [CR, LF, LF];
    assert b[2..] == [LF] && Pairs(b) == 1;
    assert StaleFrom([a, b], 0, 1);
    SplitInvariance([a, b]);
  }

  // ------------------------------------------------------------------------ the terminal

  class PipeTerminal {
    var lastCharWasCr: bool

    constructor ()
      ensures !lastCharWasCr
    {
      lastCharWasCr := false;
    }

    method NormalizeLoneLf(data: seq<byte>) returns (result: seq<byte>)
      modifies this
      ensures result == Normalized(old(lastCharWasCr), data)
      ensures lastCharWasCr == FlagAfter(old(lastCharWasCr), data)
    {
      if |data| == 0 {
        return data;
      }
      result := [];
      for i := 0 to |data|
        invariant result == Emitted(old(lastCharWasCr), data, i)
        invariant lastCharWasCr == FlagAt(old(lastCharWasCr), data, i)
      {
        var b := data[i];
        if b == LF {
          if i > 0 && data[i - 1] == CR {
            result := result + [b];
          } else if lastCharWasCr {
            result := result + [b];
            lastCharWasCr := false;
          } else {
            result := result + [CR] + [b];
          }
        } else if b == CR {
          result := result + [b];
          if i + 1 < |data| {
            if data[i + 1] != LF {
              lastCharWasCr := false;
            }
          } else {
            lastCharWasCr := true;
          }
        } else {
          lastCharWasCr := false;
          result := result + [b];
        }
      }
    }

    method RelayChunks(chunks: seq<seq<byte>>) returns (out: seq<byte>)
      requires !lastCharWasCr
      modifies this
      ensures out == Relayed(chunks) && lastCharWasCr == FlagOver(chunks)
      ensures out == OnePass(Joined(chunks), false) <==> !StaleSplit(chunks)
    {
      hide Normalized, FlagAfter, StaleSplit, OnePass, Joined;
      out := [];
      for i := 0 to |chunks|
        invariant out == Relayed(chunks[..i]) && lastCharWasCr == FlagOver(chunks[..i])
      {
        var data := NormalizeLoneLf(chunks[i]);
        assert chunks[..i + 1][..i] == chunks[..i];
        out := out + data;
      }
      assert chunks[..|chunks|] == chunks;
      SplitInvariance(chunks);
    }
  }
}
