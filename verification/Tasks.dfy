/** Polling a task: Ping and Wait, and what a finished Wait tells about the server. */
module Tasks {
  import opened Prelude
  import GoStrings

  const RUNNING := "running"
  const STOPPED := "stopped"

  /** The parts of UPID:node:pid:pstart:starttime:type:id:user:, empty when it is too short. */
  datatype Identity = Identity(upid: string, node: string, job: string, id: string, user: string)

  const UPID_FIELDS: nat := 8

  /** NewTask: nil for an empty UPID. */
  function NewTask(upid: string): Option<Identity> {
    if upid == "" then None
    else
      var parts := GoStrings.Split(upid, ':');
      if |parts| < UPID_FIELDS then Some(Identity(upid, "", "", "", ""))
      else Some(Identity(upid, parts[1], parts[5], parts[6], parts[7]))
  }

  /** The exported fields Ping reads and writes. */
  datatype TaskFields = TaskFields(
    status: string, exit: string,
    isCompleted: bool, isRunning: bool, isFailed: bool, isSuccessful: bool)

  /** The answer to one status request: an error, {"data":null} (which leaves the receiver
      alone), or a status object, whose decode overwrites every exported field. */
  datatype PingReply = PingFailed | NullStatus | Status(fields: TaskFields)

  const NEW_FIELDS := TaskFields("", "", false, false, false, false)

  /** taskExitSucceeded: "OK" or ^WARNINGS: \d+$ */
  predicate ExitSucceeded(exit: string) {
    exit == "OK" ||
    (|exit| > |"WARNINGS: "| && exit[..|"WARNINGS: "|] == "WARNINGS: " &&
     GoStrings.AllDigits(exit[|"WARNINGS: "|..]))
  }

  /** The flags Ping derives from status and exit status. */
  function Flagged(t: TaskFields): TaskFields {
    var t1 := if t.status == STOPPED then t.(isCompleted := true) else t.(isRunning := true);
    if !t1.isCompleted then t1
    else if ExitSucceeded(t1.exit) then t1.(isSuccessful := true)
    else t1.(isFailed := true)
  }

  function Pinged(t: TaskFields, r: PingReply): TaskFields {
    match r
    case PingFailed => t
    case NullStatus => Flagged(t)
    case Status(f) => Flagged(f)
  }

  datatype WaitResult = Finished | TimedOut | PingError

  /** The polling loop: the deadline is seen before iteration number timer. The last
      component is what the server has not been asked for yet. */
  function Polled(t: TaskFields, pings: seq<PingReply>, timer: nat): (WaitResult, TaskFields, seq<PingReply>)
    decreases |pings|
  {
    if timer == 0 then (TimedOut, t, pings)
    else if pings == [] then (PingError, t, pings)
    else if pings[0].PingFailed? then (PingError, t, pings[1..])
    else
      var t' := Pinged(t, pings[0]);
      if t'.status != RUNNING then (Finished, t', pings[1..]) else Polled(t', pings[1..], timer - 1)
  }

  /** Wait pings once before it starts the clock. */
  function Waited(t: TaskFields, pings: seq<PingReply>, timer: nat): (WaitResult, TaskFields, seq<PingReply>) {
    if pings == [] then (PingError, t, pings)
    else if pings[0].PingFailed? then (PingError, t, pings[1..])
    else Polled(Pinged(t, pings[0]), pings[1..], timer)
  }

  // ------------------------------------------------------ implementation

  /** A *Task together with the answers the server will give to its status requests. */
  class Task {
    const upid: string
    var fields: TaskFields
    var pings: seq<PingReply>

    constructor (upid: string, pings: seq<PingReply>)
      ensures this.upid == upid && fields == NEW_FIELDS && this.pings == pings
    {
      this.upid, this.pings, fields := upid, pings, NEW_FIELDS;
    }

    method Ping() returns (failed: bool)
      modifies this
      ensures old(pings) == [] ==> failed && fields == old(fields) && pings == []
      ensures old(pings) != [] ==> failed == old(pings)[0].PingFailed? && pings == old(pings)[1..] &&
                                   fields == Pinged(old(fields), old(pings)[0])
    {
      if |pings| == 0 {
        return true;
      }
      var reply := pings[0];
      pings := pings[1..];
      if reply.PingFailed? {
        return true;
      }
      if reply.Status? {
        fields := reply.fields;
      }
      if fields.status == STOPPED {
        fields := fields.(isCompleted := true);
      } else {
        fields := fields.(isRunning := true);
      }
      if fields.isCompleted {
        if ExitSucceeded(fields.exit) {
          fields := fields.(isSuccessful := true);
        } else {
          fields := fields.(isFailed := true);
        }
      }
      failed := false;
    }

    /** timer is the number of iterations that start before the deadline is seen. */
    method Wait(timer: nat) returns (result: WaitResult)
      modifies this
      ensures (result, fields, pings) == Waited(old(fields), old(pings), timer)
    {
      var failed := Ping();
      if failed {
        return PingError;
      }
      var left := timer;
      while true
        invariant Polled(fields, pings, left) == Waited(old(fields), old(pings), timer)
        decreases left
      {
        if left == 0 {
          return TimedOut;
        }
        failed := Ping();
        if failed {
          return PingError;
        }
        if fields.status != RUNNING {
          return Finished;
        }
        left := left - 1;
      }
    }
  }

  // ---------------------------------------------------------- properties

  /** The fields a UPID was put together from are read back if there are at least eight. */
  lemma UpidPartsAreReadBack(parts: seq<string>)
    requires parts != [] && GoStrings.AllFree(parts, ':') && parts != [""]
    ensures var upid := GoStrings.Join(parts, ':');
            NewTask(upid) == Some(if |parts| < 8 then Identity(upid, "", "", "", "")
                                  else Identity(upid, parts[1], parts[5], parts[6], parts[7]))
  {
    GoStrings.SplitOfJoin(parts, ':');
    assert GoStrings.Split("", ':') == [""];
  }

  /** Exactly when one status object makes a task count as successful. */
  lemma PingVerdict(t: TaskFields, f: TaskFields)
    ensures Pinged(t, Status(f)).isSuccessful <==>
            f.isSuccessful || ((f.status == "stopped" || f.isCompleted) && GoodExit(f.exit))
  {
    GoodExitIff(f.exit);
  }

  /** The server's status objects do not carry the client's own flags. */
  predicate FlagFree(pings: seq<PingReply>) {
    forall i | 0 <= i < |pings| && pings[i].Status? ::
      pings[i].fields == TaskFields(pings[i].fields.status, pings[i].fields.exit, false, false, false, false)
  }

  /** The newest status object among the first n answers. */
  function LastSeen(pings: seq<PingReply>, n: nat): Option<TaskFields>
    requires n <= |pings|
  {
    if n == 0 then None
    else if pings[n - 1].Status? then Some(pings[n - 1].fields)
    else LastSeen(pings, n - 1)
  }

  /** A task's fields are what its newest status object says, and nothing else. */
  predicate Reflects(t: TaskFields, seen: Option<TaskFields>) {
    match seen
    case None => t.status == "" && !t.isCompleted && !t.isSuccessful && !t.isFailed
    case Some(f) => t == Flagged(f)
  }

  lemma PingReflects(t: TaskFields, pings: seq<PingReply>, n: nat)
    requires n < |pings| && FlagFree(pings) && !pings[n].PingFailed?
    requires Reflects(t, LastSeen(pings, n))
    ensures Reflects(Pinged(t, pings[n]), LastSeen(pings, n + 1))
  {
    LastSeenIsFlagFree(pings, n);
  }

  lemma {:induction false} LastSeenIsFlagFree(pings: seq<PingReply>, n: nat)
    requires n <= |pings| && FlagFree(pings)
    ensures LastSeen(pings, n).Some? ==>
              var f := LastSeen(pings, n).value;
              f == TaskFields(f.status, f.exit, false, false, false, false)
  {
    if n > 0 {
      LastSeenIsFlagFree(pings, n - 1);
    }
  }

  /** How many of the answers a computation that left rest has consumed. */
  function Consumed(pings: seq<PingReply>, rest: seq<PingReply>): int {
    |pings| - |rest|
  }

  lemma {:induction false} PolledReflects(t: TaskFields, pings: seq<PingReply>, from: nat, timer: nat)
    requires from <= |pings| && FlagFree(pings) && Reflects(t, LastSeen(pings, from))
    ensures var (result, t', rest) := Polled(t, pings[from..], timer);
            && from <= Consumed(pings, rest) <= |pings|
            && Reflects(t', LastSeen(pings, Consumed(pings, rest)))
    decreases timer
  {
    if timer > 0 && from < |pings| {
      assert pings[from..][0] == pings[from] && pings[from..][1..] == pings[from + 1..];
      if !pings[from].PingFailed? {
        PingReflects(t, pings, from);
        if Pinged(t, pings[from]).status == RUNNING {
          PolledReflects(Pinged(t, pings[from]), pings, from + 1, timer - 1);
        }
      } else {
        assert LastSeen(pings, from + 1) == LastSeen(pings, from);
      }
    }
  }

  lemma WaitReflects(pings: seq<PingReply>, timer: nat)
    requires FlagFree(pings)
    ensures var (_, t, rest) := Waited(NEW_FIELDS, pings, timer);
            && 0 <= Consumed(pings, rest) <= |pings|
            && Reflects(t, LastSeen(pings, Consumed(pings, rest)))
  {
    hide Polled, Flagged;
    if pings != [] {
      if pings[0].PingFailed? {
        assert LastSeen(pings, 1) == LastSeen(pings, 0);
      } else {
        PingReflects(NEW_FIELDS, pings, 0);
        PolledReflects(Pinged(NEW_FIELDS, pings[0]), pings, 1, timer);
      }
    }
  }

  /** After any Wait on a new Task object, it is successful exactly when the newest status
      object the server sent says stopped, with exit status OK or WARNINGS. */
  lemma SuccessMeansStopped(pings: seq<PingReply>, timer: nat)
    requires FlagFree(pings)
    ensures var (_, t, rest) := Waited(NEW_FIELDS, pings, timer);
            && 0 <= Consumed(pings, rest) <= |pings|
            && var seen := LastSeen(pings, Consumed(pings, rest));
               t.isSuccessful <==> seen.Some? && seen.value.status == "stopped" && GoodExit(seen.value.exit)
  {
    hide Waited;
    FlagsMean(pings, timer);
  }

  // ------------------------------------------------- which exits succeed

  /** Proxmox's own rule, character by character: "OK", or "WARNINGS: " and a number. */
  ghost predicate GoodExit(exit: string) {
    exit == "OK" ||
    exists d: string :: d != "" && exit == "WARNINGS: " + d && forall i | 0 <= i < |d| :: d[i] in "0123456789"
  }

  lemma GoodExitIff(exit: string)
    ensures ExitSucceeded(exit) <==> GoodExit(exit)
  {
    var prefix := "WARNINGS: ";
    if |exit| > |prefix| && exit[..|prefix|] == prefix && GoStrings.AllDigits(exit[|prefix|..]) {
      var d := exit[|prefix|..];
      assert exit == prefix + d;
      forall i | 0 <= i < |d| ensures d[i] in "0123456789" {
        GoStrings.DigitsAreTen(d[i]);
      }
    }
    if d: string :| d != "" && exit == prefix + d && forall i | 0 <= i < |d| :: d[i] in "0123456789" {
      assert exit[|prefix|..] == d && exit[..|prefix|] == prefix;
      forall i | 0 <= i < |d| ensures GoStrings.IsDigit(d[i]) {
        GoStrings.DigitsAreTen(d[i]);
      }
    }
  }

  /** What all four flags mean after a Wait on a new Task, whatever its result, once a status
      object has been received; before that none of the verdicts is set. */
  lemma FlagsMean(pings: seq<PingReply>, timer: nat)
    requires FlagFree(pings)
    ensures var (_, t, rest) := Waited(NEW_FIELDS, pings, timer);
            && 0 <= Consumed(pings, rest) <= |pings|
            && match LastSeen(pings, Consumed(pings, rest))
               case None => !t.isCompleted && !t.isSuccessful && !t.isFailed
               case Some(f) =>
                 && t.status == f.status && t.exit == f.exit
                 && (t.isCompleted <==> f.status == "stopped") && (t.isRunning <==> f.status != "stopped")
                 && (t.isSuccessful <==> f.status == "stopped" && GoodExit(f.exit))
                 && (t.isFailed <==> f.status == "stopped" && !GoodExit(f.exit))
  {
    hide Waited;
    WaitReflects(pings, timer);
    var (_, t, rest) := Waited(NEW_FIELDS, pings, timer);
    var seen := LastSeen(pings, Consumed(pings, rest));
    LastSeenIsFlagFree(pings, Consumed(pings, rest));
    if seen.Some? {
      GoodExitIff(seen.value.exit);
    }
  }

  // ---------------------------------------------------- how long Wait waits

  predicate Answered(pings: seq<PingReply>, i: nat) {
    i < |pings| && !pings[i].PingFailed?
  }

  /** The status on a Task after answers lo to n - 1: that of the newest status object. */
  function StatusSeen(status: string, pings: seq<PingReply>, lo: nat, n: nat): string
    requires lo <= n <= |pings|
    decreases n
  {
    if n == lo then status
    else if pings[n - 1].Status? then pings[n - 1].fields.status
    else StatusSeen(status, pings, lo, n - 1)
  }

  /** Answer i came, and then the status was (or was not) "running". */
  predicate SaysRunning(pings: seq<PingReply>, i: nat) {
    Answered(pings, i) && StatusSeen("", pings, 0, i + 1) == "running"
  }

  predicate SaysOther(pings: seq<PingReply>, i: nat) {
    Answered(pings, i) && StatusSeen("", pings, 0, i + 1) != "running"
  }

  /** The first ping was answered, and polls 1 to i - 1 all said running. */
  predicate WaitingUntil(pings: seq<PingReply>, i: nat) {
    (i > 0 ==> Answered(pings, 0)) && forall j | 0 < j < i :: SaysRunning(pings, j)
  }

  lemma PingedStatus(t: TaskFields, r: PingReply)
    ensures Pinged(t, r).status == if r.Status? then r.fields.status else t.status
  {}

  /** Where the polling loop stops, counting the first ping as answer 0. */
  lemma {:induction false} PolledStops(t: TaskFields, pings: seq<PingReply>, from: nat, timer: nat) returns (i: nat)
    requires 0 < from <= |pings| && t.status == StatusSeen("", pings, 0, from)
    ensures from <= i && forall j | from <= j < i :: SaysRunning(pings, j)
    ensures var (result, _, rest) := Polled(t, pings[from..], timer);
            match result
            case Finished => i < from + timer && SaysOther(pings, i) && rest == pings[i + 1..]
            case TimedOut => i == from + timer <= |pings| && rest == pings[i..]
            case PingError => i < from + timer && !Answered(pings, i) && rest == if i < |pings| then pings[i + 1..] else []
    decreases timer
  {
    hide Pinged;
    i := from;
    if timer > 0 && Answered(pings, from) {
      PingedStatus(t, pings[from]);
      assert pings[from..][0] == pings[from] && pings[from..][1..] == pings[from + 1..];
      if Pinged(t, pings[from]).status == RUNNING {
        i := PolledStops(Pinged(t, pings[from]), pings, from + 1, timer - 1);
      }
    }
  }

  /** Wait finishes exactly when, within its deadline, some poll is answered with a status other
      than running and all polls before it were answered with running; it times out exactly
      when every poll up to the deadline was; and it fails exactly when an answer is missing or
      an error before either. It reads no answer beyond the one that decides. */
  lemma WaitEndsIff(pings: seq<PingReply>, timer: nat)
    ensures var (result, _, rest) := Waited(NEW_FIELDS, pings, timer);
            && (result.Finished? <==> exists i | 1 <= i <= timer :: WaitingUntil(pings, i) && SaysOther(pings, i))
            && (result.TimedOut? <==> WaitingUntil(pings, timer + 1))
            && (result.PingError? <==> exists i | 0 <= i <= timer :: WaitingUntil(pings, i) && !Answered(pings, i))
            && (forall i | 1 <= i <= timer && WaitingUntil(pings, i) && SaysOther(pings, i) :: rest == pings[i + 1..])
            && (forall i | 0 <= i <= timer && WaitingUntil(pings, i) && !Answered(pings, i) ::
                  rest == if i < |pings| then pings[i + 1..] else [])
            && (result.TimedOut? ==> timer < |pings| && rest == pings[timer + 1..])
  {
    hide Waited, Polled, SaysRunning, SaysOther;
    var (result, _, rest) := Waited(NEW_FIELDS, pings, timer);
    if !Answered(pings, 0) {
      FirstPingFails(pings, timer);
      assert WaitingUntil(pings, 0) && !Answered(pings, 0);
    } else {
      FirstPingAnswered(pings, timer);
      var i := PolledStops(Pinged(NEW_FIELDS, pings[0]), pings, 1, timer);
      assert WaitingUntil(pings, i);
      forall j | 0 < j ensures SaysRunning(pings, j) ==> Answered(pings, j) && !SaysOther(pings, j) {
        OneStatus(pings, j);
      }
      OneStatus(pings, i);
    }
  }

  lemma OneStatus(pings: seq<PingReply>, i: nat)
    ensures SaysRunning(pings, i) || SaysOther(pings, i) ==> Answered(pings, i)
    ensures !(SaysRunning(pings, i) && SaysOther(pings, i))
  {}

  lemma FirstPingFails(pings: seq<PingReply>, timer: nat)
    requires !Answered(pings, 0)
    ensures Waited(NEW_FIELDS, pings, timer).0.PingError?
    ensures Waited(NEW_FIELDS, pings, timer).2 == if pings == [] then [] else pings[1..]
  {}

  lemma FirstPingAnswered(pings: seq<PingReply>, timer: nat)
    requires Answered(pings, 0)
    ensures Waited(NEW_FIELDS, pings, timer) == Polled(Pinged(NEW_FIELDS, pings[0]), pings[1..], timer)
    ensures Pinged(NEW_FIELDS, pings[0]).status == StatusSeen("", pings, 0, 1)
  {}

  /** The status seen is that of the newest status object. */
  lemma {:induction false} StatusIsLastSeen(pings: seq<PingReply>, n: nat)
    requires n <= |pings|
    ensures StatusSeen("", pings, 0, n) == if LastSeen(pings, n).Some? then LastSeen(pings, n).value.status else ""
  {
    if n > 0 {
      StatusIsLastSeen(pings, n - 1);
    }
  }

  /** The server's answers to one Wait report a success: some poll within the deadline, the first
      not to say running, left "stopped" with a good exit as the newest status. */
  ghost predicate ReportsSuccess(pings: seq<PingReply>, timer: nat) {
    exists i | 1 <= i <= timer ::
      WaitingUntil(pings, i) && Answered(pings, i) &&
      var seen := LastSeen(pings, i + 1);
      seen.Some? && seen.value.status == "stopped" && GoodExit(seen.value.exit)
  }

  /** Waiting ends well, with a Task that says so, exactly when the answers report a success. */
  lemma SuccessIsReportedIff(pings: seq<PingReply>, timer: nat)
    requires FlagFree(pings)
    ensures var (result, t, _) := Waited(NEW_FIELDS, pings, timer);
            result.Finished? && t.isSuccessful <==> ReportsSuccess(pings, timer)
  {
    hide Waited, WaitingUntil, GoodExit;
    var (result, t, rest) := Waited(NEW_FIELDS, pings, timer);
    WaitEndsIff(pings, timer);
    FlagsMean(pings, timer);
    if result.Finished? {
      var i :| 1 <= i <= timer && WaitingUntil(pings, i) && SaysOther(pings, i);
      assert Consumed(pings, rest) == i + 1;
      assert t.isSuccessful ==> ReportsSuccess(pings, timer);
    }
    if ReportsSuccess(pings, timer) {
      var i :| 1 <= i <= timer && WaitingUntil(pings, i) && Answered(pings, i) &&
        LastSeen(pings, i + 1).Some? && LastSeen(pings, i + 1).value.status == "stopped" && GoodExit(LastSeen(pings, i + 1).value.exit);
      StatusIsLastSeen(pings, i + 1);
      assert SaysOther(pings, i);
      assert Consumed(pings, rest) == i + 1;
    }
  }
}
