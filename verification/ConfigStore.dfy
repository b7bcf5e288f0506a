// Saving the agent's configuration, as steps on a disk that a crash can interrupt anywhere,
// and rotating the agent's token.
module ConfigStore {
  import opened ConfigFiles
  import opened Wrappers

  predicate SameBut(a: Files, b: Files, p: Path) { forall q: Path :: q != p ==> FileAt(a, q) == FileAt(b, q) }

  lemma SameButSet(a: Files, b: Files, p: Path, v: string)
    ensures SameBut(b, b, p)
    ensures SameBut(a, b, p) ==> SameBut(a[p := v], b, p)
  {
  }

  // The file system. `trace` records every state that a crash could have left behind. On a
  // `healthy` disk no operation fails.
  class Disk {
    const healthy: bool
    var files: Files
    ghost var trace: seq<Files>
    ghost var removals: seq<Path>  // what was asked to be removed, with success or without

    constructor (files: Files, healthy: bool)
      ensures this.files == files && trace == [files] && this.healthy == healthy && removals == []
    {
      this.files, trace, this.healthy, removals := files, [files], healthy, [];
    }

    // The state on record last is the one there is.
    ghost predicate Recorded()
      reads this
    {
      |trace| > 0 && trace[|trace| - 1] == files
    }

    // Truncates the file and writes it piece by piece; any piece may fail. Each prefix of the
    // content up to there is a state on the way.
    method Write(p: Path, content: string) returns (ok: bool)
      modifies `files, `trace
      ensures old(trace) <= trace && SameBut(files, old(files), p)
      ensures forall i :: |old(trace)| <= i < |trace| ==> SameBut(trace[i], old(files), p)
      ensures Prefixes(trace, |old(trace)|, content, p)
      ensures ok ==> FileAt(files, p) == Some(content) && |trace| == |old(trace)| + |content| + 1
      ensures |trace| == |old(trace)| ==> files == old(files)
      ensures old(Recorded()) ==> Recorded()
      ensures healthy ==> ok
    {
      hide Prefixes, SameBut;
      SameButSet(files, files, p, "");
      NoPrefixes(trace, content, p);
      ok := *;
      if !ok && !healthy {
        return;
      }
      files := files[p := ""];
      OnePrefix(trace, |trace|, content, p, files);
      trace := trace + [files];
      var i := 0;
      while i < |content|
        invariant 0 <= i <= |content| && FileAt(files, p) == Some(content[..i])
        invariant old(trace) <= trace && SameBut(files, old(files), p)
        invariant forall j :: |old(trace)| <= j < |trace| ==> SameBut(trace[j], old(files), p)
        invariant |trace| == |old(trace)| + i + 1 && Recorded()
        invariant Prefixes(trace, |old(trace)|, content, p)
      {
        ok := *;
        if !ok && !healthy {
          return;
        }
        SameButSet(files, old(files), p, content[..i + 1]);
        files := files[p := content[..i + 1]];
        OnePrefix(trace, |old(trace)|, content, p, files);
        trace := trace + [files];
        i := i + 1;
      }
      assert content[..|content|] == content;
      ok := true;
    }

    // Atomic, if it succeeds.
    method Rename(from: Path, to: Path) returns (ok: bool)
      requires from in files && from != to
      modifies `files, `trace
      ensures ok ==> files == old(files)[to := old(files)[from]] - {from} && trace == old(trace) + [files]
      ensures !ok ==> files == old(files) && trace == old(trace)
      ensures old(Recorded()) ==> Recorded()
      ensures healthy ==> ok
    {
      ok := *;
      ok := ok || healthy;
      if ok {
        files := files[to := files[from]] - {from};
        trace := trace + [files];
      }
    }

    method Remove(p: Path) returns (ok: bool)
      modifies this
      ensures ok ==> files == old(files) - {p} && trace == old(trace) + [files]
      ensures !ok ==> files == old(files) && trace == old(trace)
      ensures removals == old(removals) + [p]
      ensures old(Recorded()) ==> Recorded()
      ensures healthy ==> ok
    {
      ok := *;
      ok := ok || healthy;
      removals := removals + [p];
      if ok {
        files := files - {p};
        trace := trace + [files];
      }
    }
  }

  // What the states from one on have in the file: the content up to a character more each.
  ghost predicate Prefixes(trace: seq<Files>, from: nat, content: string, p: Path) {
    && |trace| <= from + |content| + 1
    && forall i :: from <= i < |trace| ==> FileAt(trace[i], p) == Some(content[..i - from])
  }

  lemma NoPrefixes(trace: seq<Files>, content: string, p: Path)
    ensures Prefixes(trace, |trace|, content, p)
  {
  }

  lemma OnePrefix(trace: seq<Files>, from: nat, content: string, p: Path, files: Files)
    requires Prefixes(trace, from, content, p) && from <= |trace| <= from + |content|
    requires FileAt(files, p) == Some(content[..|trace| - from])
    ensures Prefixes(trace + [files], from, content, p)
  {
    hide FileAt;
  }

  // All states from one on hold, as configuration, what there was or the new text.
  ghost predicate OldOrNew(trace: seq<Files>, from: nat, old_: Option<string>, new_: string) {
    forall i :: from <= i < |trace| ==> FileAt(trace[i], Config) == old_ || FileAt(trace[i], Config) == Some(new_)
  }

  const TOKEN_KEY := "agent_token"
  const VERSION_KEY := "last_token_version"

  lemma KeysDiffer()
    ensures TOKEN_KEY != VERSION_KEY
  {
    assert |TOKEN_KEY| == 11 && |VERSION_KEY| == 18;
  }

  class AgentConfig {
    const disk: Disk
    const codec: Codec
    const defaults: Data
    var data: Data

    constructor (disk: Disk, codec: Codec, defaults: Data)
      ensures this.disk == disk && this.codec == codec && this.defaults == defaults
      ensures data == Recovered(codec, defaults, disk.files)
    {
      this.disk, this.codec, this.defaults := disk, codec, defaults;
      data := Recovered(codec, defaults, disk.files);
    }

    // Errors are swallowed; `saved` is what the log says.
    method Save() returns (saved: bool)
      modifies disk
      ensures old(disk.trace) <= disk.trace
      ensures OldOrNew(disk.trace, |old(disk.trace)|, FileAt(old(disk.files), Config), Sealed(codec, data))
      ensures FileAt(disk.files, Config)
              == if saved then Some(Sealed(codec, data)) else FileAt(old(disk.files), Config)
      ensures old(disk.Recorded()) ==> disk.Recorded()
      ensures disk.healthy ==> saved
      ensures disk.healthy && Config in old(disk.files) ==>
                FileAt(disk.files, Bak) == FileAt(old(disk.files), Config)
    {
      hide Sealed, Prefixes;
      saved := *;
      if !saved && !disk.healthy {
        return;
      }
      var content := Sealed(codec, data);
      saved := disk.Write(Temp, content);
      if !saved {
        return;
      }
      if Config in disk.files {
        var _ := disk.Write(Bak, disk.files[Config]);
      }
      saved := disk.Rename(Temp, Config);
    }

    method Update(key: string, value: Field)
      modifies this
      ensures data == old(data)[key := value]
    {
      data := data[key := value];
    }

    // Raises if the file could not be replaced; the data in memory has changed by then.
    method SaveAgentTokenAtomic(token: string) returns (raised: bool)
      modifies this, disk
      ensures data == old(data)[TOKEN_KEY := Text(token)]
      ensures old(disk.trace) <= disk.trace
      ensures OldOrNew(disk.trace, |old(disk.trace)|, FileAt(old(disk.files), Config), codec.dumps(data))
      ensures FileAt(disk.files, Config)
              == if raised then FileAt(old(disk.files), Config) else Some(codec.dumps(data))
      ensures old(disk.Recorded()) ==> disk.Recorded()
      ensures disk.healthy ==> !raised
      ensures disk.healthy && Config in old(disk.files) ==>
                FileAt(disk.files, Backup) == FileAt(old(disk.files), Config)
    {
      hide TOKEN_KEY, Prefixes;
      Update(TOKEN_KEY, Text(token));
      raised := *;
      if raised && !disk.healthy {
        return;
      }
      if Config in disk.files {
        var _ := disk.Write(Backup, disk.files[Config]);
      }
      raised := ReplaceConfig(codec.dumps(data));
    }

    method ReplaceConfig(content: string) returns (raised: bool)
      modifies disk
      ensures old(disk.trace) <= disk.trace
      ensures OldOrNew(disk.trace, |old(disk.trace)|, FileAt(old(disk.files), Config), content)
      ensures FileAt(disk.files, Config) == if raised then FileAt(old(disk.files), Config) else Some(content)
      ensures old(disk.Recorded()) ==> disk.Recorded()
      ensures raised && Temp in disk.files ==> disk.removals == old(disk.removals) + [Temp]
      ensures !raised ==> disk.removals == old(disk.removals)
      ensures disk.healthy ==> !raised && FileAt(disk.files, Backup) == FileAt(old(disk.files), Backup)
    {
      hide Prefixes;
      raised := true;
      var written := disk.Write(Temp, content);
      if written {
        var renamed := disk.Rename(Temp, Config);
        raised := !renamed;
      }
      if raised && Temp in disk.files {
        var _ := disk.Remove(Temp);
      }
    }

    method SaveAgentToken(token: string)
      modifies this, disk
      ensures data == old(data)[TOKEN_KEY := Text(token)]
      ensures old(disk.trace) <= disk.trace
      ensures OldOrNew(disk.trace, |old(disk.trace)|, FileAt(old(disk.files), Config), Sealed(codec, data))
      ensures FileAt(disk.files, Config) == FileAt(old(disk.files), Config)
              || FileAt(disk.files, Config) == Some(Sealed(codec, data))
      ensures old(disk.Recorded()) ==> disk.Recorded()
      ensures disk.healthy ==> FileAt(disk.files, Config) == Some(Sealed(codec, data))
    {
      hide TOKEN_KEY, Sealed;
      Update(TOKEN_KEY, Text(token));
      var _ := Save();
    }
  }

  // A crash at any step of a save leaves a file that gives back exactly the old or the new
  // data: nothing is lost and nothing is mixed.
  lemma {:induction false} CrashSafe(c: Codec, defaults: Data, trace: seq<Files>, from: nat, before: Files,
                                     d0: Data, d1: Data, text: string, i: nat)
    requires IsCodec(c) && Holds(c, before, d0) && Complete(defaults, d0) && Complete(defaults, d1)
    requires text == Sealed(c, d1) || text == c.dumps(d1)
    requires OldOrNew(trace, from, FileAt(before, Config), text) && from <= i < |trace|
    ensures Recovered(c, defaults, trace[i]) == d0 || Recovered(c, defaults, trace[i]) == d1
  {
    hide Sealed, Recovered, Complete, IsCodec;
    if FileAt(trace[i], Config) == FileAt(before, Config) {
      HeldIsRecovered(c, defaults, trace[i], d0);
    } else {
      HeldIsRecovered(c, defaults, trace[i], d1);
    }
  }
}
