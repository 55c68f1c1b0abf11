/** The IP blocklist shared by both servers (`IPBlocker` in the app_sim800
    security module and its copy in the app_web main module): an in-memory
    set of blocked addresses, cached from an append-only text file and
    refreshed when the file's modification time moves past the last one
    seen. */
module IpBlocklist {
  import opened Text

  /** The blocklist file: its text, its modification time, and whether the
      operations on it succeed (reading includes UTF-8 decoding). */
  datatype File = File(present: bool, content: string, mtime: nat, readable: bool, writable: bool)

  /** A successful block as written to the warning log. */
  datatype Entry = Entry(ip: string, reason: string)

  /** The whole state of a blocker: the cached set, the last mtime seen,
      the file and the warnings logged so far. */
  datatype Blocker = Blocker(blocked: set<string>, lastModified: nat, file: File, log: seq<Entry>)

  /** Text-mode reading turns "\r\n" and "\r" into "\n". Since empty lines
      are dropped, mapping each '\r' to '\n' yields the same stripped lines. */
  function Universal(s: string): (r: string)
    ensures |r| == |s|
    ensures forall i :: 0 <= i < |s| ==> r[i] == if s[i] == '\r' then '\n' else s[i]
  {
    seq(|s|, i requires 0 <= i < |s| => if s[i] == '\r' then '\n' else s[i])
  }

  function Lines(content: string): seq<string>
  {
    Split(Universal(content), '\n')
  }

  /** The stripped, non-empty lines. */
  function Stripped(lines: seq<string>): set<string>
  {
    if lines == [] then {}
    else (if Strip(lines[0]) != [] then {Strip(lines[0])} else {}) + Stripped(lines[1..])
  }

  lemma {:induction false} StrippedConcat(a: seq<string>, b: seq<string>)
    ensures Stripped(a + b) == Stripped(a) + Stripped(b)
    decreases |a|
  {
    if a != [] {
      assert (a + b)[1..] == a[1..] + b;
      StrippedConcat(a[1..], b);
    } else {
      assert a + b == b;
    }
  }

  lemma StrippedOne(x: string)
    ensures Stripped([x]) == if Strip(x) != [] then {Strip(x)} else {}
  {
    assert [x][1..] == [];
  }

  /** The set holds exactly the non-empty stripped lines. */
  lemma {:induction false} StrippedMembers(lines: seq<string>, t: string)
    ensures t in Stripped(lines) <==> t != [] && exists k :: 0 <= k < |lines| && Strip(lines[k]) == t
    decreases |lines|
  {
    if lines != [] {
      StrippedMembers(lines[1..], t);
      if t in Stripped(lines[1..]) {
        var k :| 0 <= k < |lines[1..]| && Strip(lines[1..][k]) == t;
        assert Strip(lines[k + 1]) == t;
      }
      if t != [] && exists k :: 0 <= k < |lines| && Strip(lines[k]) == t {
        var k :| 0 <= k < |lines| && Strip(lines[k]) == t;
        if k > 0 {
          assert Strip(lines[1..][k - 1]) == t;
        }
      }
    }
  }

  /** `{ip.strip() for ip in f.readlines() if ip.strip()}` */
  function LoadedSet(content: string): set<string>
  {
    Stripped(Lines(content))
  }

  /** update_cache (the value-level state change): a present file whose mtime is newer than the last one
      seen is read; if the read succeeds, the set is replaced and the mtime
      remembered. A missing file or a failed read leaves everything as it
      was. */
  function Refresh(b: Blocker): Blocker
  {
    if b.file.present && b.file.mtime > b.lastModified && b.file.readable then
      b.(blocked := LoadedSet(b.file.content), lastModified := b.file.mtime)
    else b
  }

  /** is_blocked: refresh, then look the address up. */
  function Query(b: Blocker, ip: string): (Blocker, bool)
  {
    var b' := Refresh(b);
    (b', ip in b'.blocked)
  }

  /** Opening in append mode creates a missing file. */
  function Append(f: File, text: string, now: nat): File
  {
    f.(present := true, content := (if f.present then f.content else "") + text, mtime := now)
  }

  /** block_ip: a trusted address is never written; otherwise the line
      `ip + "\n"` is appended and only then is the address added to the set
      and the warning logged. A failed write changes nothing. */
  function Block(b: Blocker, trusted: set<string>, ip: string, reason: string, now: nat): Blocker
  {
    if ip in trusted then b
    else if !b.file.writable then b
    else b.(file := Append(b.file, ip + "\n", now), blocked := b.blocked + {ip}, log := b.log + [Entry(ip, reason)])
  }

  // ---------------------------------------------------------------- lemmas

  /** The cached mtime never decreases, and the file is never touched by a
      refresh. */
  lemma RefreshMonotone(b: Blocker)
    ensures Refresh(b).lastModified >= b.lastModified
    ensures Refresh(b).file == b.file && Refresh(b).log == b.log
  {
  }

  /** The two outcomes of a refresh, both directions. */
  lemma RefreshOutcome(b: Blocker)
    ensures Refresh(b) != b ==> Refresh(b).blocked == LoadedSet(b.file.content)
                                    && Refresh(b).lastModified == b.file.mtime
    ensures !(b.file.present && b.file.mtime > b.lastModified) ==> Refresh(b) == b
    ensures !b.file.readable ==> Refresh(b) == b
  {
  }

  /** Refreshing twice is refreshing once. */
  lemma RefreshIdempotent(b: Blocker)
    ensures Refresh(Refresh(b)) == Refresh(b)
  {
  }

  lemma TrustedNeverWritten(b: Blocker, trusted: set<string>, ip: string, reason: string, now: nat)
    requires ip in trusted
    ensures Block(b, trusted, ip, reason, now) == b
  {
  }

  lemma FailedWriteChangesNothing(b: Blocker, trusted: set<string>, ip: string, reason: string, now: nat)
    requires !b.file.writable
    ensures Block(b, trusted, ip, reason, now) == b
  {
  }

  /** A successful block adds the address to the set and one line to the
      file, and leaves the cached mtime alone. */
  lemma BlockEffect(b: Blocker, trusted: set<string>, ip: string, reason: string, now: nat)
    requires ip !in trusted && b.file.writable
    ensures Block(b, trusted, ip, reason, now).blocked == b.blocked + {ip}
    ensures Block(b, trusted, ip, reason, now).lastModified == b.lastModified
    ensures Block(b, trusted, ip, reason, now).log == b.log + [Entry(ip, reason)]
    ensures Block(b, trusted, ip, reason, now).file.content ==
              (if b.file.present then b.file.content else "") + ip + "\n"
  {
  }

  /** What one address written by block_ip looks like in the file. */
  predicate CleanIp(ip: string)
  {
    ip != [] && Strip(ip) == ip && '\n' !in ip && '\r' !in ip
  }

  /** The text is empty or ends with a line break. */
  predicate LineTerminated(content: string)
  {
    content == [] || content[|content| - 1] == '\n' || content[|content| - 1] == '\r'
  }

  lemma UniversalAppend(content: string, ip: string)
    requires '\r' !in ip
    ensures Universal(content + ip + "\n") == Universal(content) + ip + "\n"
  {
  }

  /** A line-terminated text still is once every '\r' becomes '\n'. */
  lemma UniversalTerminated(content: string)
    requires LineTerminated(content)
    ensures Universal(content) == [] || Universal(content)[|content| - 1] == '\n'
  {
  }

  lemma LinesAppend(content: string, ip: string)
    requires LineTerminated(content) && '\n' !in ip && '\r' !in ip
    ensures Lines(content) != [] && Lines(content)[|Lines(content)| - 1] == []
    ensures Lines(content + ip + "\n") == Lines(content)[..|Lines(content)| - 1] + [ip, ""]
  {
    UniversalAppend(content, ip);
    UniversalTerminated(content);
    SplitAppendLine(Universal(content), ip, '\n');
  }

  lemma StripEmpty()
    ensures Strip([]) == []
  {
  }

  lemma StrippedTail(common: seq<string>, ip: string)
    requires CleanIp(ip)
    ensures Stripped(common + [ip, ""]) == Stripped(common + [""]) + {ip}
  {
    StripEmpty();
    StrippedOne(ip);
    StrippedOne("");
    StrippedConcat([ip], [""]);
    assert [ip] + [""] == [ip, ""];
    StrippedConcat(common, [""]);
    StrippedConcat(common, [ip, ""]);
  }

  /** When the file ends with a line break, appending `ip + "\n"` adds
      exactly that address to what a reload reads. */
  lemma LoadedAppend(content: string, ip: string)
    requires LineTerminated(content) && CleanIp(ip)
    ensures LoadedSet(content + ip + "\n") == LoadedSet(content) + {ip}
  {
    LinesAppend(content, ip);
    var before := Lines(content);
    var common := before[..|before| - 1];
    assert before == common + [""];
    StrippedTail(common, ip);
  }

  lemma AppendTerminates(content: string, ip: string)
    ensures LineTerminated(content + ip + "\n")
  {
    var t := content + ip + "\n";
    assert t[|t| - 1] == '\n';
  }

  /** Block-then-blocked: once a clean address has been written to a
      line-terminated file, the next is_blocked reports it, whether or not
      the refresh reloads the file. */
  lemma BlockThenBlocked(b: Blocker, trusted: set<string>, ip: string, reason: string, now: nat)
    requires ip !in trusted && b.file.writable && CleanIp(ip)
    requires !b.file.present || LineTerminated(b.file.content)
    ensures Query(Block(b, trusted, ip, reason, now), ip).1
  {
    var c := if b.file.present then b.file.content else "";
    LoadedAppend(c, ip);
    BlockEffect(b, trusted, ip, reason, now);
    QueryFinds(Block(b, trusted, ip, reason, now), ip);
  }

  /** An address both cached and on a line of the file is reported whether
      or not the refresh reloads. */
  lemma QueryFinds(b: Blocker, ip: string)
    requires ip in b.blocked && ip in LoadedSet(b.file.content)
    ensures Query(b, ip).1
  {
  }

  /** The cache agrees with the file: every cached address is on a line of
      it, and the file ends with a line break. */
  predicate Consistent(b: Blocker)
  {
    b.file.present && LineTerminated(b.file.content) && b.blocked <= LoadedSet(b.file.content)
  }

  lemma RefreshKeepsConsistent(b: Blocker)
    requires Consistent(b)
    ensures Consistent(Refresh(b))
  {
  }

  lemma BlockKeepsConsistent(b: Blocker, trusted: set<string>, ip: string, reason: string, now: nat)
    requires Consistent(b) && CleanIp(ip)
    ensures Consistent(Block(b, trusted, ip, reason, now))
  {
    if ip !in trusted && b.file.writable {
      LoadedAppend(b.file.content, ip);
      AppendTerminates(b.file.content, ip);
      BlockEffect(b, trusted, ip, reason, now);
    }
  }

  /** An empty address (an empty X-Forwarded-For header) is cached in memory
      but dropped by the next reload: its line strips to nothing. */
  lemma EmptyAddressForgotten(b: Blocker, trusted: set<string>, reason: string, now: nat)
    requires "" !in trusted && b.file.writable && !b.file.present && b.file.readable
    requires now > b.lastModified
    ensures Query(Block(b, trusted, "", reason, now), "").1 == false
    ensures Block(b, trusted, "", reason, now).blocked == b.blocked + {""}
  {
    var b' := Block(b, trusted, "", reason, now);
    assert b'.file.content == "\n";
    BlankLineLoadsNothing();
  }

  /** A file holding one empty line reloads as the empty set. */
  lemma BlankLineLoadsNothing()
    ensures LoadedSet("\n") == {}
  {
    assert Universal("\n") == "\n";
    assert Split("\n", '\n') == [[], []] by {
      assert FirstIndexOf("\n", '\n') == 0;
      assert "\n"[1..] == [];
    }
    StripEmpty();
  }

  /** A file whose last line lacks its line break glues the next address to
      that line: neither address is found after a reload. */
  lemma UnterminatedLineMerges()
    ensures LoadedSet("10.0.0.1" + "10.0.0.2" + "\n") == {"10.0.0.110.0.0.2"}
  {
    var line := "10.0.0.110.0.0.2";
    assert "10.0.0.1" + "10.0.0.2" + "\n" == line + "\n";
    assert CleanIp(line) by {
      StripKeepsUnpadded(line);
      NoBreaks(line);
    }
    OneLineLoads(line);
  }

  /** A file of one clean line reloads as that address alone. */
  lemma OneLineLoads(line: string)
    requires CleanIp(line)
    ensures LoadedSet(line + "\n") == {line}
  {
    LineAfterNothing(line);
    LoadedAppend([], line);
    EmptyLoadsNothing();
  }

  /** A dotted-decimal text holds no line break. */
  lemma NoBreaks(x: string)
    requires forall i :: 0 <= i < |x| ==> IsDigit(x[i]) || x[i] == '.'
    ensures '\n' !in x && '\r' !in x
  {
  }

  lemma LineAfterNothing(line: string)
    ensures [] + line + "\n" == line + "\n"
  {
  }

  /** An empty file reloads as the empty set. */
  lemma EmptyLoadsNothing()
    ensures LoadedSet([]) == {}
  {
    assert Universal([]) == [];
    assert Split([], '\n') == [[]];
    StrippedOne([]);
    StripEmpty();
  }

  // ------------------------------------------------------------ the class

  /** Builds the set read by a reload, line by line. */
  method ReadBlocklist(content: string) returns (s: set<string>)
    ensures s == LoadedSet(content)
  {
    s := StripLines(Lines(content));
  }

  /** The loop over the lines: each stripped line that is not empty joins
      the set. */
  method StripLines(lines: seq<string>) returns (s: set<string>)
    ensures s == Stripped(lines)
  {
    s := {};
    var i := 0;
    while i < |lines|
      invariant 0 <= i <= |lines|
      invariant s + Stripped(lines[i..]) == Stripped(lines)
    {
      var t := Strip(lines[i]);
      assert Stripped(lines[i..]) == (if t != [] then {t} else {}) + Stripped(lines[i + 1..]) by {
        assert lines[i..][1..] == lines[i + 1..];
      }
      if t != [] {
        s := s + {t};
      }
      i := i + 1;
    }
    assert Stripped(lines[i..]) == {};
  }

  class IPBlocker {
    var blocked: set<string>
    var lastModified: nat
    /** The file itself; other processes may change it between calls. */
    var file: File
    var log: seq<Entry>
    const trusted: set<string>

    function State(): Blocker
      reads this
    {
      Blocker(blocked, lastModified, file, log)
    }

    constructor (trusted: set<string>, file: File)
      ensures State() == Blocker({}, 0, file, []) && this.trusted == trusted
    {
      this.trusted := trusted;
      this.file := file;
      blocked := {};
      lastModified := 0;
      log := [];
    }

    method UpdateCache()
      modifies this
      ensures State() == Refresh(old(State()))
    {
      if file.present {
        var currentMtime := file.mtime;
        if currentMtime > lastModified && file.readable {
          var ips := ReadBlocklist(file.content);
          blocked := ips;
          lastModified := currentMtime;
        }
      }
    }

    method IsBlocked(ip: string) returns (r: bool)
      modifies this
      ensures (State(), r) == Query(old(State()), ip)
    {
      UpdateCache();
      r := ip in blocked;
    }

    method BlockIp(ip: string, reason: string, now: nat)
      modifies this
      ensures State() == Block(old(State()), trusted, ip, reason, now)
    {
      if ip in trusted {
        return;
      }
      if file.writable {
        file := Append(file, ip + "\n", now);
        blocked := blocked + {ip};
        log := log + [Entry(ip, reason)];
      }
    }
  }
}
