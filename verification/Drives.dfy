// operatorapi/operator_direct_csi.go: listing and formatting the drives of direct-csi.
module Drives {
  import opened Counting
  import opened Sorting
  import opened Text
  import opened Wrappers

  const UNAVAILABLE := "Unavailable"
  const IN_USE := "InUse"
  const READY := "Ready"
  const INITIALIZED := "Initialized"
  const OWNED := "Owned"
  const CONDITION_TRUE := "True"
  const XFS := "xfs"

  datatype Condition = Condition(kind: string, status: string, message: string)
  datatype Format = Format(filesystem: string, force: bool)
  datatype Drive = Drive(name: string, node: string, path: string, status: string, filesystem: string,
                         totalCapacity: int, allocatedCapacity: int, conditions: seq<Condition>,
                         owned: bool, requestedFormat: Option<Format>)

  // Library text rewriting: the device name of a path, and the cleaning of a message about a drive.
  datatype Naming = Naming(device: string -> string, clean: (string, string) -> string)

  // Formatting.

  datatype Issue = Issue(node: string, drive: string, error: string)
  datatype FormatError = NoDriveRequested | ListFailed | NoDrives

  datatype Verdict = NotRequested | Refused(error: string) | Attempted

  function DevicePath(d: Drive, naming: Naming): string { "/dev/" + naming.device(d.path) }
  function FullName(d: Drive, naming: Naming): string { d.node + ":" + DevicePath(d, naming) }

  const STATUS_UNAVAILABLE := "Status is unavailable"
  const DRIVE_IN_USE := "Drive in use. Cannot be formatted"
  const ALREADY_OWNED := "Drive already owned and managed. Use force to overwrite"
  const ALREADY_HAS_FS := "Drive already has a fs. Use force to overwrite"

  function Judge(d: Drive, requested: set<string>, force: bool, naming: Naming): Verdict {
    if FullName(d, naming) !in requested then NotRequested
    else if d.status == UNAVAILABLE then Refused(STATUS_UNAVAILABLE)
    else if d.status == IN_USE then Refused(DRIVE_IN_USE)
    else if !force && d.status == READY then Refused(ALREADY_OWNED)
    else if !force && d.filesystem != "" then Refused(ALREADY_HAS_FS)
    else Attempted
  }

  // Which drives may be formatted.
  predicate Formattable(d: Drive, force: bool) {
    && d.status != UNAVAILABLE && d.status != IN_USE
    && (force || (d.status != READY && d.filesystem == ""))
  }

  // What a verdict says about its drive; a refusal names the status, if the status is the reason.
  predicate Justified(verdict: Verdict, d: Drive, requested: set<string>, force: bool, naming: Naming) {
    match verdict
    case NotRequested => FullName(d, naming) !in requested
    case Attempted => FullName(d, naming) in requested && Formattable(d, force)
    case Refused(error) =>
      && FullName(d, naming) in requested && !Formattable(d, force)
      && (error == STATUS_UNAVAILABLE <==> d.status == UNAVAILABLE)
      && (error == DRIVE_IN_USE <==> d.status == IN_USE)
      && (error == ALREADY_OWNED <==> d.status == READY)
      && (error == ALREADY_HAS_FS <==> d.status !in {UNAVAILABLE, IN_USE, READY})
  }

  // Every drive has one justified verdict.
  lemma VerdictIsUnique(d: Drive, requested: set<string>, force: bool, naming: Naming, verdict: Verdict)
    ensures Justified(verdict, d, requested, force, naming) <==> verdict == Judge(d, requested, force, naming)
  {
  }

  function Requested(d: Drive, force: bool): Drive { d.(owned := true, requestedFormat := Some(Format(XFS, force))) }

  // One attempted update: the drive sent, and the error if it was refused.
  datatype Attempt = Attempt(drive: Drive, error: Option<string>)

  class DriveClient {
    var drives: map<string, Drive>
    ghost var attempts: seq<Attempt>

    method Update(d: Drive) returns (error: Option<string>)
      modifies this
      ensures error.None? ==> d.name in old(drives)
      ensures drives == if error.None? then old(drives)[d.name := d] else old(drives)
      ensures attempts == old(attempts) + [Attempt(d, error)]
    {
      error := *;
      if d.name !in drives {
        error := Some("not found");
      }
      if error.None? {
        drives := drives[d.name := d];
      }
      attempts := attempts + [Attempt(d, error)];
    }
  }

  // What the loop leaves behind: the drives attempted, the issues, and the store.
  ghost predicate Formatted(items: seq<Drive>, requested: set<string>, force: bool, naming: Naming,
                            attempts: seq<Attempt>, issues: seq<Issue>)
    decreases |items|
  {
    if items == [] then attempts == [] && issues == [] else
      var init, d := items[..|items| - 1], items[|items| - 1];
      match Judge(d, requested, force, naming)
      case NotRequested => Formatted(init, requested, force, naming, attempts, issues)
      case Refused(error) =>
        && issues != [] && issues[|issues| - 1] == Issue(d.node, DevicePath(d, naming), error)
        && Formatted(init, requested, force, naming, attempts, issues[..|issues| - 1])
      case Attempted =>
        && attempts != [] && attempts[|attempts| - 1].drive == Requested(d, force)
        && match attempts[|attempts| - 1].error
           case None => Formatted(init, requested, force, naming, attempts[..|attempts| - 1], issues)
           case Some(error) =>
             && issues != [] && issues[|issues| - 1] == Issue(d.node, DevicePath(d, naming), error)
             && Formatted(init, requested, force, naming, attempts[..|attempts| - 1], issues[..|issues| - 1])
  }

  function Stored(drives: map<string, Drive>, attempts: seq<Attempt>): map<string, Drive> {
    if attempts == [] then drives else
      var last := attempts[|attempts| - 1];
      var before := Stored(drives, attempts[..|attempts| - 1]);
      if last.error.None? then before[last.drive.name := last.drive] else before
  }

  // What is sent for a drive.
  function SentFor(d: Drive, requested: set<string>, force: bool, naming: Naming, problem: Option<string>)
    : seq<Attempt>
  {
    if Judge(d, requested, force, naming) == Attempted then [Attempt(Requested(d, force), problem)] else []
  }

  lemma DropLast<T>(s: seq<T>, x: T)
    ensures (s + [x])[..|s + [x]| - 1] == s && (s + [x])[|s + [x]| - 1] == x
  {
  }

  // One more drive, by its verdict.

  lemma OneMoreSkipped(items: seq<Drive>, d: Drive, requested: set<string>, force: bool, naming: Naming,
                       attempts: seq<Attempt>, issues: seq<Issue>)
    requires Formatted(items, requested, force, naming, attempts, issues)
    requires Judge(d, requested, force, naming) == NotRequested
    ensures Formatted(items + [d], requested, force, naming, attempts, issues)
  {
    DropLast(items, d);
  }

  lemma OneMoreRefused(items: seq<Drive>, d: Drive, requested: set<string>, force: bool, naming: Naming,
                       attempts: seq<Attempt>, issues: seq<Issue>, error: string)
    requires Formatted(items, requested, force, naming, attempts, issues)
    requires Judge(d, requested, force, naming) == Refused(error)
    ensures Formatted(items + [d], requested, force, naming, attempts,
                      issues + [Issue(d.node, DevicePath(d, naming), error)])
  {
    DropLast(items, d);
    DropLast(issues, Issue(d.node, DevicePath(d, naming), error));
  }

  lemma OneMoreAttempted(items: seq<Drive>, d: Drive, requested: set<string>, force: bool, naming: Naming,
                         attempts: seq<Attempt>, issues: seq<Issue>, problem: Option<string>)
    requires Formatted(items, requested, force, naming, attempts, issues)
    requires Judge(d, requested, force, naming) == Attempted
    ensures Formatted(items + [d], requested, force, naming, attempts + [Attempt(Requested(d, force), problem)],
                      if problem.Some? then issues + [Issue(d.node, DevicePath(d, naming), problem.value)] else issues)
  {
    DropLast(items, d);
    DropLast(attempts, Attempt(Requested(d, force), problem));
    if problem.Some? {
      DropLast(issues, Issue(d.node, DevicePath(d, naming), problem.value));
    }
  }

  lemma OneMoreDrive(items: seq<Drive>, d: Drive, requested: set<string>, force: bool, naming: Naming,
                     attempts: seq<Attempt>, issues: seq<Issue>, problem: Option<string>)
    requires Formatted(items, requested, force, naming, attempts, issues)
    requires match Judge(d, requested, force, naming)
             case NotRequested => problem.None?
             case Refused(error) => problem == Some(error)
             case Attempted => true
    ensures Formatted(items + [d], requested, force, naming, attempts + SentFor(d, requested, force, naming, problem),
                      if problem.Some? then issues + [Issue(d.node, DevicePath(d, naming), problem.value)] else issues)
  {
    assert attempts + [] == attempts;
    match Judge(d, requested, force, naming)
    case NotRequested => OneMoreSkipped(items, d, requested, force, naming, attempts, issues);
    case Refused(error) => OneMoreRefused(items, d, requested, force, naming, attempts, issues, error);
    case Attempted => OneMoreAttempted(items, d, requested, force, naming, attempts, issues, problem);
  }

  lemma OneMoreSent(drives: map<string, Drive>, attempts: seq<Attempt>, d: Drive, requested: set<string>, force: bool,
                    naming: Naming, problem: Option<string>)
    ensures var sent := SentFor(d, requested, force, naming, problem);
      Stored(drives, attempts + sent)
      == if sent != [] && problem.None? then Stored(drives, attempts)[d.name := Requested(d, force)]
         else Stored(drives, attempts)
  {
    assert attempts + [] == attempts;
    assert (attempts + [Attempt(Requested(d, force), problem)])[..|attempts|] == attempts;
  }

  method CheckDrive(d: Drive, drName: string, drivesArray: set<string>, force: bool, naming: Naming)
    returns (verdict: Verdict)
    requires drName == DevicePath(d, naming)
    ensures Justified(verdict, d, drivesArray, force, naming)
  {
    if d.node + ":" + drName !in drivesArray {
      return NotRequested;
    }
    if d.status == UNAVAILABLE {
      return Refused(STATUS_UNAVAILABLE);
    }
    if d.status == IN_USE {
      return Refused(DRIVE_IN_USE);
    }
    if !force {
      if d.status == READY {
        return Refused(ALREADY_OWNED);
      }
      if d.filesystem != "" {
        return Refused(ALREADY_HAS_FS);
      }
    }
    return Attempted;
  }

  // One listed drive: the update sent for it, if any, and the problem to report, if any.
  method FormatDrive(client: DriveClient, d: Drive, drName: string, drivesArray: set<string>, force: bool,
                     naming: Naming)
    returns (problem: Option<string>, ghost sent: seq<Attempt>)
    requires drName == DevicePath(d, naming)
    modifies client
    ensures client.attempts == old(client.attempts) + sent
    ensures sent == SentFor(d, drivesArray, force, naming, problem)
    ensures client.drives == if sent != [] && problem.None? then old(client.drives)[d.name := Requested(d, force)]
                             else old(client.drives)
    ensures client.drives.Keys == old(client.drives).Keys
    ensures match Judge(d, drivesArray, force, naming)
            case NotRequested => problem.None?
            case Refused(error) => problem == Some(error)
            case Attempted => true
  {
    sent := [];
    var verdict := CheckDrive(d, drName, drivesArray, force, naming);
    VerdictIsUnique(d, drivesArray, force, naming, verdict);
    problem := if verdict.Refused? then Some(verdict.error) else None;
    if verdict == Attempted {
      var update := d.(owned := true, requestedFormat := Some(Format(XFS, force)));
      problem := client.Update(update);
      sent := [Attempt(update, problem)];
    }
  }

  method FormatItems(client: DriveClient, items: seq<Drive>, drivesArray: set<string>, force: bool, naming: Naming)
    returns (issues: seq<Issue>, ghost attempts: seq<Attempt>)
    modifies client
    ensures client.attempts == old(client.attempts) + attempts
    ensures client.drives == Stored(old(client.drives), attempts) && client.drives.Keys == old(client.drives).Keys
    ensures Formatted(items, drivesArray, force, naming, attempts, issues)
  {
    issues, attempts := [], [];
    for i := 0 to |items|
      invariant client.attempts == old(client.attempts) + attempts
      invariant client.drives == Stored(old(client.drives), attempts) && client.drives.Keys == old(client.drives).Keys
      invariant Formatted(items[..i], drivesArray, force, naming, attempts, issues)
    {
      var d := items[i];
      assert items[..i + 1] == items[..i] + [d];
      var drName := "/dev/" + naming.device(d.path);
      ghost var issues0 := issues;
      var problem, sent := FormatDrive(client, d, drName, drivesArray, force, naming);
      if problem.Some? {
        issues := issues + [Issue(d.node, drName, problem.value)];
      }
      OneMoreDrive(items[..i], d, drivesArray, force, naming, attempts, issues0, problem);
      OneMoreSent(old(client.drives), attempts, d, drivesArray, force, naming, problem);
      attempts := attempts + sent;
    }
    assert items[..|items|] == items;
  }

  method FormatDrives(client: DriveClient, requested: seq<string>, list: Option<seq<Drive>>, force: bool,
                      naming: Naming)
    returns (r: Result<seq<Issue>, FormatError>, ghost attempts: seq<Attempt>)
    modifies client
    ensures r == Err(NoDriveRequested) <==> requested == []
    ensures r == Err(ListFailed) <==> requested != [] && list.None?
    ensures r == Err(NoDrives) <==> requested != [] && list == Some([])
    ensures client.attempts == old(client.attempts) + attempts
    ensures client.drives == Stored(old(client.drives), attempts) && client.drives.Keys == old(client.drives).Keys
    ensures r.Err? ==> attempts == []
    ensures r.Ok? ==> Formatted(list.value, (set name | name in requested), force, naming, attempts, r.value)
  {
    attempts := [];
    assert client.attempts + attempts == client.attempts;
    if |requested| == 0 {
      return Err(NoDriveRequested), [];
    }
    if list.None? {
      return Err(ListFailed), [];
    }
    var drivesArray := {};
    for i := 0 to |requested|
      invariant drivesArray == set name | name in requested[..i]
    {
      drivesArray := drivesArray + {requested[i]};
    }
    assert requested[..|requested|] == requested;
    var items := list.value;
    if |items| == 0 {
      return Err(NoDrives), [];
    }
    var issues;
    issues, attempts := FormatItems(client, items, drivesArray, force, naming);
    return Ok(issues), attempts;
  }

  function Matches(requested: set<string>, naming: Naming): Drive -> nat {
    (d: Drive) => if FullName(d, naming) in requested then 1 else 0
  }
  function Succeeded(): Attempt -> nat { (a: Attempt) => if a.error.None? then 1 else 0 }

  // Every requested drive in the list is either updated or reported, and none is both.
  lemma {:induction false} EveryMatchIsAccountedFor(items: seq<Drive>, requested: set<string>, force: bool,
                                                    naming: Naming, attempts: seq<Attempt>, issues: seq<Issue>)
    requires Formatted(items, requested, force, naming, attempts, issues)
    ensures Total(items, Matches(requested, naming)) == Total(attempts, Succeeded()) + |issues|
  {
    if items == [] {
    } else {
      var init, d := items[..|items| - 1], items[|items| - 1];
      match Judge(d, requested, force, naming)
      case NotRequested => EveryMatchIsAccountedFor(init, requested, force, naming, attempts, issues);
      case Refused(_) => EveryMatchIsAccountedFor(init, requested, force, naming, attempts, issues[..|issues| - 1]);
      case Attempted =>
        var issues' := if attempts[|attempts| - 1].error.None? then issues else issues[..|issues| - 1];
        EveryMatchIsAccountedFor(init, requested, force, naming, attempts[..|attempts| - 1], issues');
    }
  }

  function AttemptedDrives(items: seq<Drive>, requested: set<string>, force: bool, naming: Naming): seq<Drive> {
    if items == [] then [] else
      var d := items[|items| - 1];
      AttemptedDrives(items[..|items| - 1], requested, force, naming)
        + if Judge(d, requested, force, naming) == Attempted then [Requested(d, force)] else []
  }

  // Exactly the requested drives of the list that may be formatted are attempted.
  lemma {:induction false} AttemptedExactly(items: seq<Drive>, requested: set<string>, force: bool, naming: Naming,
                                            update: Drive)
    ensures update in AttemptedDrives(items, requested, force, naming)
            <==> exists i :: 0 <= i < |items| && FullName(items[i], naming) in requested && Formattable(items[i], force)
                             && update == Requested(items[i], force)
  {
    if items == [] {
    } else {
      var init, d := items[..|items| - 1], items[|items| - 1];
      AttemptedExactly(init, requested, force, naming, update);
      VerdictIsUnique(d, requested, force, naming, Attempted);
      assert forall i | 0 <= i < |init| :: init[i] == items[i];
    }
  }

  // With force the same drives are attempted in the same order, with others in between.
  lemma {:induction false} ForceOnlyEnlarges(items: seq<Drive>, requested: set<string>, naming: Naming)
    returns (at: seq<nat>)
    ensures var gentle := AttemptedDrives(items, requested, false, naming);
      var forced := AttemptedDrives(items, requested, true, naming);
      && |at| == |gentle|
      && (forall k | 0 <= k < |at| ::
            at[k] < |forced| && forced[at[k]] == gentle[k].(requestedFormat := Some(Format(XFS, true))))
      && (forall j, k | 0 <= j < k < |at| :: at[j] < at[k])
  {
    if items == [] {
      at := [];
    } else {
      var init, d := items[..|items| - 1], items[|items| - 1];
      at := ForceOnlyEnlarges(init, requested, naming);
      if Judge(d, requested, false, naming) == Attempted {
        at := at + [|AttemptedDrives(init, requested, true, naming)|];
      }
    }
  }

  // The updates sent are those of the drives that pass the checks, in the order of the list.
  lemma {:induction false} AttemptsFollowTheList(items: seq<Drive>, requested: set<string>, force: bool, naming: Naming,
                                                 attempts: seq<Attempt>, issues: seq<Issue>)
    requires Formatted(items, requested, force, naming, attempts, issues)
    ensures var sent := AttemptedDrives(items, requested, force, naming);
      |sent| == |attempts| && forall i | 0 <= i < |attempts| :: attempts[i].drive == sent[i]
  {
    if items == [] {
    } else {
      var init, d := items[..|items| - 1], items[|items| - 1];
      match Judge(d, requested, force, naming)
      case NotRequested => AttemptsFollowTheList(init, requested, force, naming, attempts, issues);
      case Refused(_) => AttemptsFollowTheList(init, requested, force, naming, attempts, issues[..|issues| - 1]);
      case Attempted =>
        var issues' := if attempts[|attempts| - 1].error.None? then issues else issues[..|issues| - 1];
        AttemptsFollowTheList(init, requested, force, naming, attempts[..|attempts| - 1], issues');
    }
  }

  // The positions of the drives that pass, and their updates.

  function AttemptedAt(items: seq<Drive>, requested: set<string>, force: bool, naming: Naming): (at: seq<nat>)
    ensures forall k | 0 <= k < |at| :: at[k] < |items|
  {
    if items == [] then [] else
      var n := |items| - 1;
      AttemptedAt(items[..n], requested, force, naming)
        + if Judge(items[n], requested, force, naming) == Attempted then [n] else []
  }

  predicate Ascending(at: seq<nat>) { forall j, k | 0 <= j < k < |at| :: at[j] < at[k] }

  lemma AscendingAtEnd(init: seq<nat>, n: nat)
    requires Ascending(init) && forall k | 0 <= k < |init| :: init[k] < n
    ensures Ascending(init + [n])
  {
  }

  lemma {:induction false} PositionsAscend(items: seq<Drive>, requested: set<string>, force: bool, naming: Naming)
    ensures Ascending(AttemptedAt(items, requested, force, naming))
  {
    if items == [] {
    } else {
      var n := |items| - 1;
      var init := AttemptedAt(items[..n], requested, force, naming);
      PositionsAscend(items[..n], requested, force, naming);
      AscendingAtEnd(init, n);
      assert init + [] == init;
    }
  }

  lemma {:induction false} PositionsExact(items: seq<Drive>, requested: set<string>, force: bool, naming: Naming,
                                          i: nat)
    requires i < |items|
    ensures i in AttemptedAt(items, requested, force, naming)
            <==> Judge(items[i], requested, force, naming) == Attempted
  {
    if i == |items| - 1 {
    } else {
      PositionsExact(items[..|items| - 1], requested, force, naming, i);
    }
  }

  lemma {:induction false} PositionsOfUpdates(items: seq<Drive>, requested: set<string>, force: bool, naming: Naming)
    ensures var at := AttemptedAt(items, requested, force, naming);
      var sent := AttemptedDrives(items, requested, force, naming);
      |at| == |sent| && forall k | 0 <= k < |at| :: at[k] < |items| && sent[k] == Requested(items[at[k]], force)
  {
    if items == [] {
    } else {
      PositionsOfUpdates(items[..|items| - 1], requested, force, naming);
    }
  }

  // The updates in full: they are sent, in list order, for exactly the requested drives that may be
  // formatted. Each is its listed drive, now owned and with a format requested, and otherwise unchanged.
  lemma UpdatesInFull(items: seq<Drive>, requested: set<string>, force: bool, naming: Naming, attempts: seq<Attempt>,
                      issues: seq<Issue>)
    returns (about: seq<nat>)
    requires Formatted(items, requested, force, naming, attempts, issues)
    ensures |about| == |attempts| && forall j, k | 0 <= j < k < |about| :: about[j] < about[k]
    ensures forall k | 0 <= k < |about| ::
              && about[k] < |items|
              && var d, sent := items[about[k]], attempts[k].drive;
              && sent.owned && sent.requestedFormat == Some(Format("xfs", force))
              && sent.(owned := d.owned, requestedFormat := d.requestedFormat) == d
    ensures forall i: nat | i < |items| ::
              var d := items[i];
              i in about <==>
                && d.node + ":" + ("/dev/" + naming.device(d.path)) in requested
                && d.status != "Unavailable" && d.status != "InUse"
                && (force || (d.status != "Ready" && d.filesystem == ""))
  {
    about := AttemptedAt(items, requested, force, naming);
    PositionsAscend(items, requested, force, naming);
    forall i: nat | i < |items| ensures i in about <==> Judge(items[i], requested, force, naming) == Attempted {
      PositionsExact(items, requested, force, naming, i);
    }
    PositionsOfUpdates(items, requested, force, naming);
    AttemptsFollowTheList(items, requested, force, naming, attempts, issues);
  }

  // Why a requested drive that may not be formatted is refused.
  function Refusal(status: string): string {
    if status == "Unavailable" then "Status is unavailable"
    else if status == "InUse" then "Drive in use. Cannot be formatted"
    else if status == "Ready" then "Drive already owned and managed. Use force to overwrite"
    else "Drive already has a fs. Use force to overwrite"
  }

  // An issue is about a requested drive, and gives the reason if it was refused.
  predicate IsAbout(issue: Issue, d: Drive, requested: set<string>, force: bool, naming: Naming) {
    && FullName(d, naming) in requested
    && issue.node == d.node && issue.drive == "/dev/" + naming.device(d.path)
    && (!Formattable(d, force) ==> issue.error == Refusal(d.status))
  }

  lemma LastIssue(items: seq<Drive>, requested: set<string>, force: bool, naming: Naming, attempts: seq<Attempt>,
                  issues: seq<Issue>)
    returns (attempts': seq<Attempt>, issues': seq<Issue>)
    requires items != [] && Formatted(items, requested, force, naming, attempts, issues)
    ensures Formatted(items[..|items| - 1], requested, force, naming, attempts', issues')
    ensures issues == issues'
            || (issues != [] && issues' == issues[..|issues| - 1]
                && IsAbout(issues[|issues| - 1], items[|items| - 1], requested, force, naming))
  {
    attempts', issues' := attempts, issues;
    match Judge(items[|items| - 1], requested, force, naming)
    case NotRequested =>
    case Refused(_) => issues' := issues[..|issues| - 1];
    case Attempted =>
      attempts' := attempts[..|attempts| - 1];
      if attempts[|attempts| - 1].error.Some? {
        issues' := issues[..|issues| - 1];
      }
  }

  // The issues stand in the order of the drives they are about.
  lemma {:induction false} IssuesFollowTheList(items: seq<Drive>, requested: set<string>, force: bool, naming: Naming,
                                               attempts: seq<Attempt>, issues: seq<Issue>)
    returns (about: seq<nat>)
    requires Formatted(items, requested, force, naming, attempts, issues)
    ensures |about| == |issues| && forall j, k | 0 <= j < k < |about| :: about[j] < about[k]
    ensures forall k | 0 <= k < |about| ::
              about[k] < |items| && IsAbout(issues[k], items[about[k]], requested, force, naming)
  {
    if items == [] {
      about := [];
    } else {
      var n := |items| - 1;
      var attempts', issues' := LastIssue(items, requested, force, naming, attempts, issues);
      about := IssuesFollowTheList(items[..n], requested, force, naming, attempts', issues');
      if issues != issues' {
        about := about + [n];
      }
    }
  }

  // A name that was updated holds the last update that succeeded.
  lemma {:induction false} LastUpdateHolds(drives: map<string, Drive>, attempts: seq<Attempt>, i: nat)
    requires i < |attempts| && attempts[i].error.None?
    requires forall j | i < j < |attempts| && attempts[j].error.None? ::
               attempts[j].drive.name != attempts[i].drive.name
    ensures var name := attempts[i].drive.name;
      name in Stored(drives, attempts) && Stored(drives, attempts)[name] == attempts[i].drive
  {
    if i == |attempts| - 1 {
    } else {
      LastUpdateHolds(drives, attempts[..|attempts| - 1], i);
    }
  }

  // A drive no successful update names is unchanged.
  lemma {:induction false} OthersUnchanged(drives: map<string, Drive>, attempts: seq<Attempt>, name: string)
    requires forall a | a in attempts && a.error.None? :: a.drive.name != name
    ensures name in Stored(drives, attempts) <==> name in drives
    ensures name in drives ==> Stored(drives, attempts)[name] == drives[name]
  {
    if attempts == [] {
    } else {
      OthersUnchanged(drives, attempts[..|attempts| - 1], name);
      assert attempts[|attempts| - 1] in attempts;
    }
  }

  // Listing.

  // strings.Compare(a, b) < 0.
  predicate Before(a: string, b: string) {
    if b == "" then false
    else if a == "" then true
    else if a[0] != b[0] then a[0] < b[0]
    else Before(a[1..], b[1..])
  }

  lemma {:induction false} BeforeIsTotal(a: string, b: string)
    ensures Before(a, b) || Before(b, a) || a == b
    ensures !(Before(a, b) && Before(b, a))
    ensures a == b ==> !Before(a, b)
  {
    if a == "" || b == "" {
    } else {
      BeforeIsTotal(a[1..], b[1..]);
      assert a == [a[0]] + a[1..] && b == [b[0]] + b[1..];
    }
  }

  lemma {:induction false} BeforeIsTransitive(a: string, b: string, c: string)
    requires Before(a, b) && Before(b, c)
    ensures Before(a, c)
  {
    if a == "" || a[0] != b[0] || b[0] != c[0] {
    } else {
      BeforeIsTransitive(a[1..], b[1..], c[1..]);
    }
  }

  // The order of dictionaries: the first difference decides, and a prefix comes first.
  lemma {:induction false} BeforeIsLexicographic(a: string, b: string)
    ensures Before(a, b)
            <==> exists k :: 0 <= k <= |a| && k < |b| && a[..k] == b[..k] && (k == |a| || a[k] < b[k])
  {
    if a == "" || b == "" {
      assert b != "" ==> a[..0] == b[..0];
    } else if a[0] != b[0] {
      assert a[..0] == b[..0];
      forall k | 0 < k <= |a| && k < |b| ensures a[..k] != b[..k] {
        assert a[..k][0] == a[0] && b[..k][0] == b[0];
      }
    } else {
      BeforeIsLexicographic(a[1..], b[1..]);
      forall k | 0 < k <= |a| && k < |b| ensures a[..k] == b[..k] <==> a[1..][..k - 1] == b[1..][..k - 1] {
        assert a[..k] == [a[0]] + a[1..][..k - 1] && b[..k] == [b[0]] + b[1..][..k - 1];
        assert a[..k][1..] == a[1..][..k - 1] && b[..k][1..] == b[1..][..k - 1];
      }
      if Before(a[1..], b[1..]) {
        var k :| 0 <= k <= |a[1..]| && k < |b[1..]| && a[1..][..k] == b[1..][..k]
                 && (k == |a[1..]| || a[1..][k] < b[1..][k]);
        assert a[..k + 1] == b[..k + 1];
      }
      if k :| 0 < k <= |a| && k < |b| && a[..k] == b[..k] && (k == |a| || a[k] < b[k]) {
        assert a[1..][..k - 1] == b[1..][..k - 1];
      }
    }
  }

  // The comparator of the list: node, then path, then status.
  predicate DriveBefore(d1: Drive, d2: Drive) {
    if d1.node != d2.node then Before(d1.node, d2.node)
    else if d1.path != d2.path then Before(d1.path, d2.path)
    else Before(d1.status, d2.status)
  }

  lemma DriveBeforeIsTransitive(x: Drive, y: Drive, z: Drive)
    requires DriveBefore(x, y) && DriveBefore(y, z)
    ensures DriveBefore(x, z)
  {
    BeforeIsTotal(x.node, y.node);
    BeforeIsTotal(y.node, z.node);
    BeforeIsTotal(x.path, y.path);
    BeforeIsTotal(y.path, z.path);
    if Before(x.node, y.node) && Before(y.node, z.node) { BeforeIsTransitive(x.node, y.node, z.node); }
    if Before(x.path, y.path) && Before(y.path, z.path) { BeforeIsTransitive(x.path, y.path, z.path); }
    if Before(x.status, y.status) && Before(y.status, z.status) { BeforeIsTransitive(x.status, y.status, z.status); }
    BeforeIsTotal(x.node, z.node);
    BeforeIsTotal(x.path, z.path);
  }

  // Drives the comparator cannot tell apart agree on all three keys.
  lemma DriveBeforeIsTotal(x: Drive, y: Drive)
    ensures DriveBefore(x, y) || DriveBefore(y, x) || (x.node == y.node && x.path == y.path && x.status == y.status)
    ensures !(DriveBefore(x, y) && DriveBefore(y, x))
  {
    BeforeIsTotal(x.node, y.node);
    BeforeIsTotal(x.path, y.path);
    BeforeIsTotal(x.status, y.status);
  }

  // An ordered list ascends by node, among one node by path, and among one path by status.
  lemma OrderedByNodePathStatus(sorted: seq<Drive>, i: nat, j: nat)
    requires Ordered(sorted, DriveBefore) && i < j < |sorted|
    ensures var x, y := sorted[i], sorted[j];
      && (x.node == y.node || Before(x.node, y.node))
      && (x.node == y.node ==> x.path == y.path || Before(x.path, y.path))
      && (x.node == y.node && x.path == y.path ==> x.status == y.status || Before(x.status, y.status))
  {
    DriveBeforeIsTotal(sorted[i], sorted[j]);
    BeforeIsTotal(sorted[i].node, sorted[j].node);
    BeforeIsTotal(sorted[i].path, sorted[j].path);
    BeforeIsTotal(sorted[i].status, sorted[j].status);
  }

  lemma ComparatorIsStrictWeakOrder()
    ensures StrictWeakOrder(DriveBefore)
  {
    forall x ensures !DriveBefore(x, x) {
      DriveBeforeIsTotal(x, x);
    }
    forall x, y, z | DriveBefore(x, y) && DriveBefore(y, z) ensures DriveBefore(x, z) {
      DriveBeforeIsTransitive(x, y, z);
    }
    forall x, y, z | DriveBefore(x, z) ensures DriveBefore(x, y) || DriveBefore(y, z) {
      DriveBeforeIsTotal(x, y);
      if DriveBefore(y, x) { DriveBeforeIsTransitive(y, x, z); }
    }
  }

  datatype DriveInfo = DriveInfo(drive: string, capacity: int, allocatedCapacity: int, node: string, status: string,
                                 message: string, volumes: int)

  predicate Problem(c: Condition) { (c.kind == INITIALIZED || c.kind == OWNED) && c.status != CONDITION_TRUE }

  // The message of the last condition that is a problem.
  function LastProblem(conditions: seq<Condition>): string {
    if conditions == [] then "" else
      var last := conditions[|conditions| - 1];
      if Problem(last) then last.message else LastProblem(conditions[..|conditions| - 1])
  }

  // A volume is given by the name of its drive.
  function OnDrive(name: string): string -> nat { (volume: string) => if volume == name then 1 else 0 }

  function Describe(d: Drive, volumes: seq<string>, naming: Naming): DriveInfo {
    var problem := LastProblem(d.conditions);
    DriveInfo(DevicePath(d, naming), d.totalCapacity, d.allocatedCapacity, d.node,
              if problem != "" then d.status + "*" else d.status,
              if problem != "" then Split(naming.clean(d.name, problem), '\n')[0] else "",
              Total(volumes, OnDrive(d.name)))
  }

  // A condition that is the last problem of its drive.
  predicate IsLastProblem(conditions: seq<Condition>, i: int) {
    && 0 <= i < |conditions|
    && (conditions[i].kind == "Initialized" || conditions[i].kind == "Owned") && conditions[i].status != "True"
    && forall j | i < j < |conditions| ::
         (conditions[j].kind != "Initialized" && conditions[j].kind != "Owned") || conditions[j].status == "True"
  }

  lemma {:induction false} LastProblemIsLast(conditions: seq<Condition>)
    ensures forall i | IsLastProblem(conditions, i) :: LastProblem(conditions) == conditions[i].message
    ensures LastProblem(conditions) != "" ==> exists i :: IsLastProblem(conditions, i)
  {
    if conditions == [] {
    } else {
      var init, n := conditions[..|conditions| - 1], |conditions| - 1;
      LastProblemIsLast(init);
      if Problem(conditions[n]) {
        assert IsLastProblem(conditions, n);
      } else {
        forall i ensures IsLastProblem(conditions, i) <==> IsLastProblem(init, i) {
          assert IsLastProblem(init, i) ==> forall j | i < j < n :: conditions[j] == init[j];
          assert IsLastProblem(conditions, i) ==> i < n;
        }
      }
    }
  }

  lemma {:induction false} TotalIsMultiplicity(volumes: seq<string>, name: string)
    ensures Total(volumes, OnDrive(name)) == multiset(volumes)[name]
  {
    if volumes == [] {
    } else {
      var init, last := volumes[..|volumes| - 1], volumes[|volumes| - 1];
      TotalIsMultiplicity(init, name);
      assert volumes == init + [last];
    }
  }

  // The description of a drive, field by field. The star and the message come from the last condition
  // that is a problem, and from no earlier one even if its own message is empty.
  lemma DescribedInFull(d: Drive, volumes: seq<string>, naming: Naming)
    ensures var info := Describe(d, volumes, naming);
      && info.drive == "/dev/" + naming.device(d.path) && info.node == d.node
      && info.capacity == d.totalCapacity && info.allocatedCapacity == d.allocatedCapacity
      && info.volumes == multiset(volumes)[d.name]
      && (info.status == d.status + "*" <==>
            exists i :: IsLastProblem(d.conditions, i) && d.conditions[i].message != "")
      && (info.status == d.status <==> info.status != d.status + "*")
      && (info.status == d.status ==> info.message == "")
      && forall i | IsLastProblem(d.conditions, i) && d.conditions[i].message != "" ::
           info.message == Split(naming.clean(d.name, d.conditions[i].message), '\n')[0]
  {
    LastProblemIsLast(d.conditions);
    TotalIsMultiplicity(volumes, d.name);
    assert |d.status + "*"| != |d.status|;
  }

  // An earlier problem is not shown when the last one has no message.
  lemma SilentProblemHidesEarlier(d: Drive, volumes: seq<string>, naming: Naming)
    requires d.conditions == [Condition("Initialized", "False", "no device"), Condition("Owned", "False", "")]
    ensures Describe(d, volumes, naming).status == d.status && Describe(d, volumes, naming).message == ""
  {
    assert IsLastProblem(d.conditions, 1);
    LastProblemIsLast(d.conditions);
  }

  method GetDirectCSIDriveList(drives: Option<seq<Drive>>, volumes: Option<seq<string>>, naming: Naming)
    returns (r: Option<seq<DriveInfo>>, ghost sorted: seq<Drive>)
    ensures r.Some? <==> drives.Some? && volumes.Some?
    ensures r.Some? ==>
              && multiset(sorted) == multiset(drives.value) && Ordered(sorted, DriveBefore)
              && |r.value| == |sorted|
              && forall i | 0 <= i < |sorted| :: r.value[i] == Describe(sorted[i], volumes.value, naming)
  {
    sorted := [];
    if drives.None? || volumes.None? {
      return None, [];
    }
    var drivesSorted := new Drive[|drives.value|](i requires 0 <= i < |drives.value| => drives.value[i]);
    assert drivesSorted[..] == drives.value;
    ComparatorIsStrictWeakOrder();
    SortSlice(drivesSorted, DriveBefore);
    sorted := drivesSorted[..];
    var infos := DescribeDrives(drivesSorted[..], volumes.value, naming);
    r := Some(infos);
  }

  method DescribeDrives(drivesSorted: seq<Drive>, volList: seq<string>, naming: Naming) returns (infos: seq<DriveInfo>)
    ensures |infos| == |drivesSorted|
    ensures forall i | 0 <= i < |drivesSorted| :: infos[i] == Describe(drivesSorted[i], volList, naming)
  {
    infos := [];
    for i := 0 to |drivesSorted|
      invariant |infos| == i
      invariant forall k | 0 <= k < i :: infos[k] == Describe(drivesSorted[k], volList, naming)
    {
      var info := DescribeDrive(drivesSorted[i], volList, naming);
      infos := infos + [info];
    }
  }

  method DescribeDrive(d: Drive, volList: seq<string>, naming: Naming) returns (info: DriveInfo)
    ensures info == Describe(d, volList, naming)
  {
    var volumes := 0;
    for i := 0 to |volList|
      invariant volumes == Total(volList[..i], OnDrive(d.name))
    {
      TotalExtend(volList, i, OnDrive(d.name));
      if volList[i] == d.name {
        volumes := volumes + 1;
      }
    }
    assert volList[..|volList|] == volList;
    var msg := "";
    for i := 0 to |d.conditions|
      invariant msg == LastProblem(d.conditions[..i])
    {
      assert d.conditions[..i + 1][..i] == d.conditions[..i];
      var c := d.conditions[i];
      if c.kind == INITIALIZED {
        if c.status != CONDITION_TRUE {
          msg := c.message;
          continue;
        }
      }
      if c.kind == OWNED {
        if c.status != CONDITION_TRUE {
          msg := c.message;
          continue;
        }
      }
    }
    assert d.conditions[..|d.conditions|] == d.conditions;
    var status := d.status;
    if msg != "" {
      status := status + "*";
      msg := Split(naming.clean(d.name, msg), '\n')[0];
    }
    info := DriveInfo("/dev/" + naming.device(d.path), d.totalCapacity, d.allocatedCapacity, d.node, status,
                      msg, volumes);
  }

  function VolumeCount(): DriveInfo -> nat { (info: DriveInfo) => if info.volumes >= 0 then info.volumes else 0 }

  function Listed(drives: seq<Drive>): string -> nat {
    (volume: string) => if exists i :: 0 <= i < |drives| && drives[i].name == volume then 1 else 0
  }

  lemma {:induction false} TotalSplit(volumes: seq<string>, a: string -> nat, b: string -> nat, both: string -> nat)
    requires forall v :: both(v) == a(v) + b(v)
    ensures Total(volumes, both) == Total(volumes, a) + Total(volumes, b)
  {
    if volumes == [] {
    } else {
      TotalSplit(volumes[..|volumes| - 1], a, b, both);
    }
  }

  // With distinct drive names every volume of a listed drive is counted exactly once.
  lemma {:induction false} VolumeCountsSum(sorted: seq<Drive>, infos: seq<DriveInfo>, volumes: seq<string>,
                                           naming: Naming)
    requires forall i, j | 0 <= i < j < |sorted| :: sorted[i].name != sorted[j].name
    requires |infos| == |sorted| && forall i | 0 <= i < |sorted| :: infos[i] == Describe(sorted[i], volumes, naming)
    ensures Total(infos, VolumeCount()) == Total(volumes, Listed(sorted))
  {
    if sorted == [] {
      TotalConstant(volumes, Listed(sorted), 0);
    } else {
      var init, d := sorted[..|sorted| - 1], sorted[|sorted| - 1];
      VolumeCountsSum(init, infos[..|infos| - 1], volumes, naming);
      forall v ensures Listed(sorted)(v) == Listed(init)(v) + OnDrive(d.name)(v) {
        assert forall i | 0 <= i < |init| :: init[i] == sorted[i];
        assert sorted[|sorted| - 1] == d;
      }
      TotalSplit(volumes, Listed(init), OnDrive(d.name), Listed(sorted));
    }
  }
}
