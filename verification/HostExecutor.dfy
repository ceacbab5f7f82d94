/** The real executor: the argument vectors it lets reach the host, and the container drain. */
module HostExecutor {
  import opened Basics
  import Settings
  import Text

  datatype Error = UnsafeArgs | Unavailable | Cancelled

  datatype Outcome = Success | Failed(error: Error)

  // ----- argument vectors

  predicate IsHexDigit(c: char) {
    '0' <= c <= '9' || 'a' <= c <= 'f' || 'A' <= c <= 'F'
  }

  predicate ValidContainerID(id: string) {
    var bare := Text.Trim(id);
    12 <= |bare| <= 64 && forall c :: c in bare ==> IsHexDigit(c)
  }

  const PATH_SPECIALS: string := "|&;<>$`\n\r \t"
  const ARG_SPECIALS: string := "|&;<>$`\n\r"

  predicate ArgAllowed(a: string) {
    a != "-c" && a != "/c" && !Text.ContainsAny(a, ARG_SPECIALS)
  }

  predicate PathAllowed(name: string) {
    Text.IsAbs(name) && !Text.ContainsAny(name, PATH_SPECIALS)
  }

  /** The arguments each known command may be given. */
  predicate ArgsFit(command: string, args: seq<string>) {
    match command
    case "docker" => args == ["ps", "-q"] || (|args| == 2 && args[0] == "stop" && ValidContainerID(args[1]))
    case "systemctl" => args == ["poweroff"]
    case "poweroff" => args == []
    case "sync" => args == []
    case _ => false
  }

  predicate ValidArgv(name: string, args: seq<string>) {
    && PathAllowed(name)
    && ArgsFit(Text.Base(name), args)
    && forall i :: 0 <= i < |args| ==> ArgAllowed(args[i])
  }

  lemma FixedArgsAreAllowed()
    ensures ArgAllowed("ps") && ArgAllowed("-q") && ArgAllowed("stop") && ArgAllowed("poweroff")
  {
  }

  lemma HexIsPlain(id: string)
    requires forall c :: c in id ==> IsHexDigit(c)
    ensures Text.Trim(id) == id && !Text.ContainsAny(id, ARG_SPECIALS)
  {
    Text.TrimOfSpaceless(id);
    forall i | 0 <= i < |id| ensures id[i] !in ARG_SPECIALS {
      assert id[i] in id;
    }
  }

  // ----- the container list

  /** The valid ids of a listing, trimmed, in the order of its lines. */
  function ContainerIDs(lines: seq<string>): (ids: seq<string>)
    ensures forall id :: id in ids <==> exists line :: line in lines && Text.Trim(line) == id && ValidContainerID(id)
  {
    if lines == [] then []
    else
      var init, id := lines[..|lines| - 1], Text.Trim(lines[|lines| - 1]);
      assert lines == init + [lines[|lines| - 1]];
      ContainerIDs(init) + if ValidContainerID(id) then [id] else []
  }

  /** A line's id, if it holds a valid one. */
  function IDOf(line: string): seq<string> {
    if ValidContainerID(Text.Trim(line)) then [Text.Trim(line)] else []
  }

  lemma OneLineMore(lines: seq<string>, line: string)
    ensures ContainerIDs(lines + [line]) == ContainerIDs(lines) + IDOf(line)
  {
    assert (lines + [line])[..|lines|] == lines;
  }

  lemma {:induction false} PiecesConcatenate(
    ids: seq<string> -> seq<string>, idOf: string -> seq<string>, lines: seq<string>, more: seq<string>)
    requires ids([]) == [] && forall init, line :: ids(init + [line]) == ids(init) + idOf(line)
    ensures ids(lines + more) == ids(lines) + ids(more)
  {
    if more == [] {
      assert lines + more == lines;
    } else {
      var init, line := more[..|more| - 1], more[|more| - 1];
      PiecesConcatenate(ids, idOf, lines, init);
      assert init + [line] == more && (lines + init) + [line] == lines + more;
    }
  }

  /** The ids come in the order of their lines. */
  lemma IDsKeepTheirOrder(lines: seq<string>, more: seq<string>)
    ensures ContainerIDs(lines + more) == ContainerIDs(lines) + ContainerIDs(more)
  {
    var ids := (ls: seq<string>) => ContainerIDs(ls);
    forall init, line ensures ids(init + [line]) == ids(init) + IDOf(line) {
      OneLineMore(init, line);
    }
    PiecesConcatenate(ids, IDOf, lines, more);
  }

  /** There is one for each line that holds a valid one. */
  lemma IDOfOneLine(line: string)
    ensures ContainerIDs([line]) == IDOf(line)
  {
    OneLineMore([], line);
    assert [] + [line] == [line];
  }

  /** A valid id is 12 to 64 hexadecimal digits, with white space around it at most. */
  lemma IDsAreHex(id: string)
    ensures ValidContainerID(id) <==>
      12 <= |Text.Trim(id)| <= 64 && forall k :: 0 <= k < |Text.Trim(id)| ==> Text.Trim(id)[k] in "0123456789abcdefABCDEF"
  {
    var bare := Text.Trim(id);
    assert forall c :: c in bare ==> (IsHexDigit(c) <==> c in "0123456789abcdefABCDEF") by {
      forall c | c in bare ensures IsHexDigit(c) <==> c in "0123456789abcdefABCDEF" {
        HexDigits(c);
      }
    }
  }

  lemma HexDigits(c: char)
    ensures IsHexDigit(c) <==> c in "0123456789abcdefABCDEF"
  {
    var digits := "0123456789abcdefABCDEF";
    assert digits[0] == '0' && digits[1] == '1' && digits[2] == '2' && digits[3] == '3' && digits[4] == '4';
    assert digits[5] == '5' && digits[6] == '6' && digits[7] == '7' && digits[8] == '8' && digits[9] == '9';
    assert digits[10] == 'a' && digits[11] == 'b' && digits[12] == 'c' && digits[13] == 'd' && digits[14] == 'e';
    assert digits[15] == 'f' && digits[16] == 'A' && digits[17] == 'B' && digits[18] == 'C' && digits[19] == 'D';
    assert digits[20] == 'E' && digits[21] == 'F';
  }

  method ParseContainerIDs(out: string) returns (ids: seq<string>)
    ensures ids == ContainerIDs(Text.Lines(out))
  {
    var lines := Text.Lines(out);
    ids := [];
    for i := 0 to |lines|
      invariant ids == ContainerIDs(lines[..i])
    {
      assert lines[..i + 1][..i] == lines[..i];
      var id := Text.Trim(lines[i]);
      if id == "" {
        continue;
      }
      if !ValidContainerID(id) {
        continue;
      }
      ids := ids + [id];
    }
    assert lines[..|lines|] == lines;
  }

  // ----- the drain

  datatype Argv = Argv(name: string, args: seq<string>)

  function Listing(docker: string): Argv {
    Argv(docker, ["ps", "-q"])
  }

  function Stopping(docker: string, id: string): Argv {
    Argv(docker, ["stop", id])
  }

  function Stops(docker: string, ids: seq<string>): seq<Argv> {
    seq(|ids|, i requires 0 <= i < |ids| => Stopping(docker, ids[i]))
  }

  /** What the host does when asked: the listing's output or `None` for an error, whether the
      context is still alive before the `i`-th stop, and whether that stop succeeds. */
  datatype Host = Host(listing: Option<string>, alive: nat -> bool, stopped: nat -> bool)

  lemma ListingFitsDocker(command: string)
    ensures ArgsFit(command, ["ps", "-q"]) <==> command == "docker"
  {
    assert |["ps", "-q"]| == 2 && ["ps", "-q"][0] == "ps";
  }

  lemma ListingNeedsDocker(docker: string)
    ensures ValidArgv(docker, ["ps", "-q"]) <==> PathAllowed(docker) && Text.Base(docker) == "docker"
  {
    ListingFitsDocker(Text.Base(docker));
    FixedArgsAreAllowed();
  }

  lemma StoppingNeedsDocker(docker: string, id: string)
    ensures PathAllowed(docker) && Text.Base(docker) == "docker" && ValidContainerID(id) && ArgAllowed(id) ==>
      ValidArgv(docker, ["stop", id])
  {
    FixedArgsAreAllowed();
  }

  lemma ParsedIDIsPlain(lines: seq<string>, id: string)
    requires id in ContainerIDs(lines)
    ensures ValidContainerID(id) && ArgAllowed(id)
  {
    var line :| line in lines && Text.Trim(line) == id && ValidContainerID(id);
    Text.TrimIdempotent(line);
    HexIsPlain(id);
    assert |id| >= 12;
  }

  /** An id that the listing yields is never refused once the listing itself was let through. */
  lemma ParsedIDsAreAccepted(docker: string, lines: seq<string>, id: string)
    requires ValidArgv(docker, ["ps", "-q"]) && id in ContainerIDs(lines)
    ensures ValidArgv(docker, ["stop", id])
  {
    ListingNeedsDocker(docker);
    ParsedIDIsPlain(lines, id);
    StoppingNeedsDocker(docker, id);
  }

  /** Whether the runner is given the stop of an id. */
  function StopAdmitted(docker: string): string -> bool {
    (id: string) => ValidArgv(docker, ["stop", id])
  }

  /** What an argument vector must be to be run at all: an absolute path without shell characters or
      blanks, to one of four commands with the arguments that command may have. */
  lemma OnlyKnownCommandsRun(name: string, args: seq<string>)
    requires ValidArgv(name, args)
    ensures name != "" && name[0] == '/' && !Blank(name) && !Text.ContainsAny(name, "|&;<>$`\n\r")
    ensures var command := Text.Base(name);
      || (command == "docker" && args == ["ps", "-q"])
      || (command == "docker" && |args| == 2 && args[0] == "stop" && ValidContainerID(args[1]))
      || (command == "systemctl" && args == ["poweroff"])
      || (command == "poweroff" && args == [])
      || (command == "sync" && args == [])
  {
    SpecialsDiffer(name);
  }

  /** The stops that were handed over were admitted, and ended as `r` says: all of the ids on
      success; otherwise up to the first id at which the context was over or which was not
      admitted, or to the first whose stop failed. */
  ghost predicate EndsAs(r: Outcome, ids: seq<string>, stops: nat, host: Host, admits: string -> bool) {
    && stops <= |ids|
    && (forall i :: 0 <= i < stops ==> admits(ids[i]))
    && (match r
        case Success => stops == |ids| && forall i: nat :: i < stops ==> host.alive(i) && host.stopped(i)
        case Failed(Cancelled) =>
          stops < |ids| && !host.alive(stops) && forall i: nat :: i < stops ==> host.alive(i) && host.stopped(i)
        case Failed(Unavailable) =>
          && 0 < stops && host.alive(stops - 1) && !host.stopped(stops - 1)
          && forall i: nat :: i < stops - 1 ==> host.alive(i) && host.stopped(i)
        case Failed(UnsafeArgs) => stops < |ids| && !admits(ids[stops]))
  }

  /** The stops of the listed ids, in order, while they are admitted. */
  method StopAll(docker: string, ids: seq<string>, host: Host, admits: string -> bool)
    returns (r: Outcome, trace: seq<Argv>)
    ensures trace <= Stops(docker, ids) && EndsAs(r, ids, |trace|, host, admits)
  {
    trace := [];
    for k := 0 to |ids|
      invariant |trace| == k && forall i :: 0 <= i < k ==> trace[i] == Stopping(docker, ids[i])
      invariant forall i: nat :: i < k ==> host.alive(i) && host.stopped(i)
      invariant forall i :: 0 <= i < k ==> admits(ids[i])
    {
      if !host.alive(k) {
        return Failed(Cancelled), trace;
      }
      if !admits(ids[k]) {
        return Failed(UnsafeArgs), trace;
      }
      trace := trace + [Stopping(docker, ids[k])];
      if !host.stopped(k) {
        return Failed(Unavailable), trace;
      }
    }
    return Success, trace;
  }

  /** What is handed over once the listing is: the listing, and then stops of the valid ids it
      names, in order. */
  ghost predicate Drains(docker: string, host: Host, admits: string -> bool, r: Outcome, trace: seq<Argv>) {
    if host.listing.None? then r == Failed(Unavailable) && trace == [Listing(docker)]
    else
      var ids := ContainerIDs(Text.Lines(host.listing.value));
      && trace != [] && trace[0] == Listing(docker)
      && trace[1..] <= Stops(docker, ids) && EndsAs(r, ids, |trace| - 1, host, admits)
  }

  method DrainListed(docker: string, host: Host, admits: string -> bool) returns (r: Outcome, trace: seq<Argv>)
    ensures Drains(docker, host, admits, r, trace)
  {
    if host.listing.None? {
      return Failed(Unavailable), [Listing(docker)];
    }
    var ids := ParseContainerIDs(host.listing.value);
    var stops;
    r, stops := StopAll(docker, ids, host, admits);
    trace := [Listing(docker)] + stops;
    assert trace[1..] == stops;
  }

  lemma ListedStopsAreAdmitted(docker: string, lines: seq<string>)
    requires ValidArgv(docker, ["ps", "-q"])
    ensures forall id :: id in ContainerIDs(lines) ==> StopAdmitted(docker)(id)
  {
    forall id | id in ContainerIDs(lines) ensures StopAdmitted(docker)(id) {
      ParsedIDsAreAccepted(docker, lines, id);
    }
  }

  /** The drain by the docker at `docker`. `trace` is every argument vector handed to the runner:
      none when the listing is refused, and otherwise the listing and the stops. A stop is never
      refused. */
  ghost predicate DrainsWith(docker: string, host: Host, r: Outcome, trace: seq<Argv>) {
    if ValidArgv(docker, ["ps", "-q"])
    then Drains(docker, host, StopAdmitted(docker), r, trace) && r != Failed(UnsafeArgs)
    else r == Failed(UnsafeArgs) && trace == []
  }

  method DrainBy(docker: string, host: Host) returns (r: Outcome, trace: seq<Argv>)
    ensures DrainsWith(docker, host, r, trace)
  {
    if !ValidArgv(docker, ["ps", "-q"]) {
      return Failed(UnsafeArgs), [];
    }
    r, trace := DrainListed(docker, host, StopAdmitted(docker));
    if host.listing.Some? {
      ListedStopsAreAdmitted(docker, Text.Lines(host.listing.value));
    }
  }

  /** The stops go well up to the `n`-th. */
  ghost predicate AllWell(host: Host, n: nat) {
    forall i: nat :: i < n ==> host.alive(i) && host.stopped(i)
  }

  /** A drain succeeds exactly when the listing does and every stop of a listed id goes well, in time;
      and then it stopped them all. Without a listing it fails after asking for one. */
  lemma DrainSucceedsExactlyWhen(docker: string, host: Host, admits: string -> bool, r: Outcome, trace: seq<Argv>)
    requires Drains(docker, host, admits, r, trace) && r != Failed(UnsafeArgs)
    ensures host.listing.None? ==> r == Failed(Unavailable) && |trace| == 1
    ensures host.listing.Some? ==> var ids := ContainerIDs(Text.Lines(host.listing.value));
      && (r == Success <==> AllWell(host, |ids|)) && (r == Success ==> |trace| == 1 + |ids|)
  {
  }

  /** Otherwise the first stop that cannot go well ends it: before the stop when the time is over, and
      after it when it failed. */
  lemma DrainEndsAtFirstTrouble(docker: string, host: Host, admits: string -> bool, r: Outcome, trace: seq<Argv>, k: nat)
    requires Drains(docker, host, admits, r, trace) && r != Failed(UnsafeArgs) && host.listing.Some?
    requires k < |ContainerIDs(Text.Lines(host.listing.value))| && AllWell(host, k) && !(host.alive(k) && host.stopped(k))
    ensures if !host.alive(k) then r == Failed(Cancelled) && |trace| == k + 1
            else r == Failed(Unavailable) && |trace| == k + 2
  {
    FirstTroubleEnds(host, ContainerIDs(Text.Lines(host.listing.value)), |trace| - 1, r, admits, k);
  }

  lemma FirstTroubleEnds(host: Host, ids: seq<string>, stops: nat, r: Outcome, admits: string -> bool, k: nat)
    requires EndsAs(r, ids, stops, host, admits) && r != Failed(UnsafeArgs)
    requires k < |ids| && AllWell(host, k) && !(host.alive(k) && host.stopped(k))
    ensures if !host.alive(k) then r == Failed(Cancelled) && stops == k else r == Failed(Unavailable) && stops == k + 1
  {
  }

  /** The drain by the configured docker, or else by what the executable search found, if that is an
      absolute path. Without a docker it fails and hands nothing to the runner. */
  method StopDocker(configured: string, found: Option<string>, host: Host) returns (r: Outcome, trace: seq<Argv>)
    ensures if configured != "" then DrainsWith(configured, host, r, trace)
            else if found.Some? && found.value != "" && found.value[0] == '/' then DrainsWith(found.value, host, r, trace)
            else r == Failed(Unavailable) && trace == []
  {
    if configured == "" && (found.None? || !Text.IsAbs(found.value)) {
      return Failed(Unavailable), [];
    }
    var docker := if configured != "" then configured else found.value;
    r, trace := DrainBy(docker, host);
  }

  lemma TraceItem(docker: string, host: Host, admits: string -> bool, r: Outcome, trace: seq<Argv>, k: nat)
    requires Drains(docker, host, admits, r, trace) && k < |trace|
    ensures k == 0 ==> trace[k] == Listing(docker)
    ensures k > 0 ==> && host.listing.Some? && var ids := ContainerIDs(Text.Lines(host.listing.value));
      k <= |ids| && trace[k] == Stopping(docker, ids[k - 1])
  {
    if k > 0 {
      assert trace[k] == trace[1..][k - 1];
    }
  }

  lemma ArgvByName(docker: string, id: string)
    ensures Listing(docker).name == docker && Listing(docker).args == ["ps", "-q"]
    ensures Stopping(docker, id).name == docker && Stopping(docker, id).args == ["stop", id]
  {
  }

  /** Every argument vector of a drain's trace is one that the runner admits: first the listing, and
      then the stops of the listed ids. */
  lemma TraceIsAdmitted(docker: string, host: Host, r: Outcome, trace: seq<Argv>, k: nat)
    requires DrainsWith(docker, host, r, trace) && k < |trace|
    ensures ValidArgv(trace[k].name, trace[k].args)
    ensures k == 0 ==> trace[k] == Listing(docker)
    ensures k > 0 ==> && host.listing.Some? && var ids := ContainerIDs(Text.Lines(host.listing.value));
      k <= |ids| && trace[k] == Stopping(docker, ids[k - 1])
  {
    TraceItem(docker, host, StopAdmitted(docker), r, trace, k);
    if k > 0 {
      var lines := Text.Lines(host.listing.value);
      ParsedIDsAreAccepted(docker, lines, ContainerIDs(lines)[k - 1]);
    }
  }

  // ----- configured paths

  /** The last path element as the power-off code takes it: what follows the last '/'. */
  function PowerOffArgs(path: string): Option<seq<string>> {
    match Text.AfterSlash(path)
    case "systemctl" => Some(["poweroff"])
    case "poweroff" => Some([])
    case _ => None
  }

  predicate Blank(path: string) {
    ' ' in path || '\t' in path
  }

  lemma SpecialsDiffer(path: string)
    ensures Text.ContainsAny(path, PATH_SPECIALS) <==> Text.ContainsAny(path, ARG_SPECIALS) || Blank(path)
  {
    assert forall c :: c in PATH_SPECIALS <==> c in ARG_SPECIALS || c == ' ' || c == '\t';
  }

  /** A docker path that the settings accept runs exactly when it holds no space or tab: the
      settings let those through and the executor does not. */
  lemma ConfiguredDockerRunsUnlessSpaced(a: Settings.Actions)
    requires Settings.ExecPathsAllowed(a) && a.dockerPath != ""
    ensures ValidArgv(a.dockerPath, ["ps", "-q"]) <==> !Blank(a.dockerPath)
  {
    SpecialsDiffer(a.dockerPath);
    ListingNeedsDocker(a.dockerPath);
  }

  lemma SyncRuns(path: string)
    requires Text.Base(path) == "sync"
    ensures ValidArgv(path, []) <==> PathAllowed(path)
  {
  }

  /** So does a sync path. */
  lemma ConfiguredSyncRunsUnlessSpaced(a: Settings.Actions)
    requires Settings.ExecPathsAllowed(a) && a.syncPath != ""
    ensures ValidArgv(a.syncPath, []) <==> !Blank(a.syncPath)
  {
    SpecialsDiffer(a.syncPath);
    SyncRuns(a.syncPath);
  }

  lemma WordNeedsSystemctl(command: string)
    ensures ArgsFit(command, ["poweroff"]) <==> command == "systemctl"
  {
    assert |["poweroff"]| == 1;
  }

  lemma SystemctlRuns(path: string)
    requires Text.Base(path) == "systemctl"
    ensures ValidArgv(path, ["poweroff"]) <==> PathAllowed(path)
  {
    WordNeedsSystemctl(Text.Base(path));
    FixedArgsAreAllowed();
  }

  lemma PlainPowerOffRuns(path: string)
    requires Text.Base(path) == "poweroff"
    ensures ValidArgv(path, []) <==> PathAllowed(path)
  {
  }

  lemma LastElementUnlessSlashed(path: string)
    requires path != "" && Text.Base(path) != "/"
    ensures path[|path| - 1] != '/' ==> Text.AfterSlash(path) == Text.Base(path)
    ensures path[|path| - 1] == '/' ==> Text.AfterSlash(path) == ""
  {
  }

  lemma SlashedPowerOffIsRefused(path: string)
    requires path != "" && path[|path| - 1] == '/'
    ensures PowerOffArgs(path).None?
  {
    assert Text.AfterSlash(path) == "";
  }

  lemma PowerOffRuns(path: string)
    requires Text.IsAbs(path) && Text.Base(path) in {"systemctl", "poweroff"} && path[|path| - 1] != '/'
    ensures PowerOffArgs(path).Some? && (ValidArgv(path, PowerOffArgs(path).value) <==> PathAllowed(path))
  {
    LastElementUnlessSlashed(path);
    if Text.Base(path) == "systemctl" {
      SystemctlRuns(path);
    } else {
      PlainPowerOffRuns(path);
    }
  }

  /** A power-off path that the settings accept runs exactly when it holds no space or tab and
      does not end in a slash, which the settings strip and the executor does not. */
  lemma ConfiguredPowerOffRunsUnlessSpacedOrSlashed(a: Settings.Actions)
    requires Settings.ExecPathsAllowed(a) && a.powerOffPath != ""
    ensures var args := PowerOffArgs(a.powerOffPath);
      args.Some? && ValidArgv(a.powerOffPath, args.value) <==>
      !Blank(a.powerOffPath) && a.powerOffPath[|a.powerOffPath| - 1] != '/'
  {
    SpecialsDiffer(a.powerOffPath);
    if a.powerOffPath[|a.powerOffPath| - 1] == '/' {
      SlashedPowerOffIsRefused(a.powerOffPath);
    } else {
      PowerOffRuns(a.powerOffPath);
    }
  }

  // ----- accepted paths that do not run

  lemma {:induction false} AfterSlashOfWord(dir: string, word: string)
    requires '/' !in word
    ensures Text.AfterSlash(dir + "/" + word) == word
  {
    if word == "" {
      assert dir + "/" + word == dir + "/";
    } else {
      var init, last := word[..|word| - 1], word[|word| - 1];
      assert (dir + "/" + word)[..|dir + "/" + word| - 1] == dir + "/" + init;
      AfterSlashOfWord(dir, init);
      assert init + [last] == word;
    }
  }

  /** A program's path, with or without a slash after it. */
  lemma BaseOfPath(dir: string, word: string)
    requires word != "" && '/' !in word
    ensures Text.Base(dir + "/" + word) == word && Text.Base(dir + "/" + word + "/") == word
  {
    var bare := dir + "/" + word;
    AfterSlashOfWord(dir, word);
    assert bare[|bare| - 1] == word[|word| - 1];
    assert Text.StripSlashes(bare) == bare;
    assert (bare + "/")[..|bare|] == bare;
    assert Text.StripSlashes(bare + "/") == bare;
  }

  lemma ContainsEither(a: string, b: string, chars: string)
    ensures Text.ContainsAny(a + b, chars) <==> Text.ContainsAny(a, chars) || Text.ContainsAny(b, chars)
  {
    assert forall i :: 0 <= i < |a| ==> (a + b)[i] == a[i];
    assert forall i :: 0 <= i < |b| ==> (a + b)[|a| + i] == b[i];
  }

  /** A path made of plain names is accepted by the settings, with or without a slash after it. */
  lemma PathIsAccepted(dir: string, command: string, bases: set<string>)
    requires Text.IsAbs(dir) && !Text.ContainsAny(dir, ARG_SPECIALS)
    requires command in bases && command != "" && '/' !in command && !Text.ContainsAny(command, ARG_SPECIALS)
    ensures Settings.ExecPathAllowed(dir + "/" + command, bases) && Settings.ExecPathAllowed(dir + "/" + command + "/", bases)
  {
    BaseOfPath(dir, command);
    ContainsEither(dir + "/" + command, "/", ARG_SPECIALS);
    ContainsEither(dir + "/", command, ARG_SPECIALS);
    ContainsEither(dir, "/", ARG_SPECIALS);
  }

  lemma SpacedIsRefused(dir: string, command: string, args: seq<string>)
    requires Blank(dir)
    ensures !ValidArgv(dir + "/" + command, args)
  {
    SpecialsDiffer(dir + "/" + command);
  }

  /** A docker under a directory whose name holds a space or tab is accepted by the settings, and
      never runs. */
  lemma SpacedDockerIsAcceptedAndRefused(dir: string)
    requires Text.IsAbs(dir) && Blank(dir) && !Text.ContainsAny(dir, ARG_SPECIALS)
    ensures var path := dir + "/" + "docker"; Settings.ExecPathAllowed(path, {"docker"}) && !ValidArgv(path, ["ps", "-q"])
  {
    PathIsAccepted(dir, "docker", {"docker"});
    SpacedIsRefused(dir, "docker", ["ps", "-q"]);
  }

  /** A poweroff with a slash after it is accepted by the settings, and never runs. */
  lemma SlashedPowerOffIsAcceptedAndRefused(dir: string)
    requires Text.IsAbs(dir) && !Text.ContainsAny(dir, ARG_SPECIALS)
    ensures var path := dir + "/" + "poweroff" + "/";
      Settings.ExecPathAllowed(path, {"systemctl", "poweroff"}) && PowerOffArgs(path).None?
  {
    PathIsAccepted(dir, "poweroff", {"systemctl", "poweroff"});
    SlashedPowerOffIsRefused(dir + "/" + "poweroff" + "/");
  }
}
