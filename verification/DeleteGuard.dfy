/** VirtualMachine.Delete and the cloud-init ISO scan that gates it. */
module DeleteGuard {
  import opened Prelude
  import opened Tasks
  import GoStrings
  import Tags
  import TagProofs

  const CLOUD_INIT_TAG := "go-proxmox+cloud-init"

  /** GET of one volume: an ISO with the volume id the reply carries, possibly none, or an error. */
  datatype Lookup = Found(volid: string) | LookupFailed

  /** GET of a storage's contents: an error, null, or entries, each possibly null. */
  datatype Listing = ListingFailed | NullListing | Entries(volids: seq<Option<string>>)

  /** DELETE of the ISO: an error, or the id of a task together with the answers to its
      status requests and the number of polls that start before the deadline. */
  datatype Removal = RemovalFailed | Started(upid: string, pings: seq<PingReply>, timer: nat)

  /** A storage of the node, and what the server will answer about it. */
  datatype Storage = Storage(
    name: string, enabled: int, content: string, lookup: Lookup, listing: Listing, removal: Removal)

  /** vmReply answers the DELETE of the VM: an error, or the id of a task. */
  datatype Server = Server(nodeFound: bool, storages: Option<seq<Storage>>, vmReply: Option<string>)

  /** Requests, in the order they are sent. */
  datatype Event =
    | LookedUp(storage: string)
    | Listed(storage: string)
    | IsoDeleted(storage: string, volid: string)
    | VmDeleted

  datatype GuardError = NodeError | StoragesError | Unconfirmed | RealLookupError | RemovalError | WaitError | TaskFailed

  /** The two results of deleteCloudInitISO, or a nil task being dereferenced. */
  datatype Verdict = Verdict(ok: bool, err: Option<GuardError>) | NilTask

  datatype DeleteError = GuardFailed(reason: GuardError) | VmRefused

  /** The task and the error Delete returns, each possibly nil. */
  datatype Deletion = Crashed | Returned(task: Option<Identity>, err: Option<DeleteError>)

  predicate Contains(s: string, part: string) {
    exists i | 0 <= i <= |s| - |part| :: s[i..][..|part|] == part
  }

  predicate IsoCapable(s: Storage) {
    s.enabled != 0 && Contains(s.content, "iso")
  }

  function VolumeId(storage: string, file: string): string {
    storage + ":iso/" + file
  }

  /** The volume id that ISO.Delete names: that of the lookup reply, or else the one asked for. */
  function DeletedVolume(s: Storage, file: string): string
    requires s.lookup.Found?
  {
    if s.lookup.volid == "" then VolumeId(s.name, file) else s.lookup.volid
  }

  // ------------------------------------------------------- specification

  function CheckAbsent(s: Storage, file: string): Option<GuardError>
    requires s.lookup.LookupFailed?
  {
    match s.listing
    case ListingFailed => Some(Unconfirmed)
    case NullListing => Some(Unconfirmed)
    case Entries(volids) => if Some(VolumeId(s.name, file)) in volids then Some(RealLookupError) else None
  }

  function RemoveIso(s: Storage): Verdict {
    match s.removal
    case RemovalFailed => Verdict(false, Some(RemovalError))
    case Started(upid, pings, timer) =>
      if upid == "" then NilTask
      else
        var (result, task, _) := Waited(NEW_FIELDS, pings, timer);
        if !result.Finished? then Verdict(false, Some(WaitError))
        else if !task.isSuccessful then Verdict(false, Some(TaskFailed))
        else Verdict(true, None)
  }

  function Scan(storages: seq<Storage>, file: string): (Verdict, seq<Event>) {
    if storages == [] then (Verdict(true, None), [])
    else
      var s := storages[0];
      if !IsoCapable(s) then Scan(storages[1..], file)
      else if s.lookup.Found? then (RemoveIso(s), [LookedUp(s.name), IsoDeleted(s.name, DeletedVolume(s, file))])
      else
        var problem := CheckAbsent(s, file);
        if problem.Some? then (Verdict(false, problem), [LookedUp(s.name), Listed(s.name)])
        else
          var (v, events) := Scan(storages[1..], file);
          (v, [LookedUp(s.name), Listed(s.name)] + events)
  }

  function Guard(tagged: bool, server: Server, file: string): (Verdict, seq<Event>) {
    if !tagged then (Verdict(true, None), [])
    else if !server.nodeFound then (Verdict(false, Some(NodeError)), [])
    else if server.storages.None? then (Verdict(false, Some(StoragesError)), [])
    else Scan(server.storages.value, file)
  }

  function DeleteRun(tagged: bool, server: Server, file: string): (Deletion, seq<Event>) {
    var (v, events) := Guard(tagged, server, file);
    if v.NilTask? then (Crashed, events)
    else if v.err.Some? then (Returned(None, Some(GuardFailed(v.err.value))), events)
    else if !v.ok then (Returned(None, None), events)
    else if server.vmReply.None? then (Returned(None, Some(VmRefused)), events + [VmDeleted])
    else (Returned(NewTask(server.vmReply.value), None), events + [VmDeleted])
  }

  function Tagged(config: Option<Tags.Config>): bool {
    config.Some? && Tags.Has(config.value, CLOUD_INIT_TAG).0
  }

  // ------------------------------------------------------ implementation

  class VirtualMachine {
    const server: Server
    const vmid: nat
    const isoFile: string
    const config: Tags.TagConfig?
    var trace: seq<Event>

    constructor (server: Server, vmid: nat, config: Tags.TagConfig?)
      ensures this.server == server && this.vmid == vmid && this.config == config && trace == []
      ensures isoFile == "user-data-" + GoStrings.Numeral(vmid) + ".iso"
    {
      this.server, this.vmid, this.config, trace := server, vmid, config, [];
      isoFile := "user-data-" + GoStrings.Numeral(vmid) + ".iso";
    }

    ghost predicate Valid()
      reads config
    {
      config != null ==> config.Valid()
    }

    ghost function ConfigState(): Option<Tags.Config>
      reads config, if config == null then {} else {config.buf}
      requires Valid()
    {
      if config == null then None else Some(config.State())
    }

    method HasTag(value: string) returns (found: bool)
      requires Valid()
      modifies config
      ensures Valid()
      ensures config == null ==> !found
      ensures config != null ==> (found, config.State()) == Tags.Has(old(ConfigState()).value, value)
    {
      if config == null {
        return false;
      }
      found := config.HasTag(value);
    }

    static method HasVolume(content: seq<Option<string>>, volid: string) returns (found: bool)
      ensures found <==> Some(volid) in content
    {
      var i := 0;
      while i < |content|
        invariant 0 <= i <= |content| && Some(volid) !in content[..i]
      {
        if content[i].Some? && content[i].value == volid {
          return true;
        }
        i := i + 1;
      }
      found := false;
    }

    method DeleteCloudInitISO() returns (v: Verdict)
      requires Valid()
      modifies config, this`trace
      ensures Valid()
      ensures (v, trace) ==
              var (verdict, events) := Guard(Tagged(old(ConfigState())), server, isoFile);
              (verdict, old(trace) + events)
    {
      assert trace + [] == trace;
      var tagged := HasTag(CLOUD_INIT_TAG);
      if !tagged {
        return Verdict(true, None);
      }
      if !server.nodeFound {
        return Verdict(false, Some(NodeError));
      }
      if server.storages.None? {
        return Verdict(false, Some(StoragesError));
      }
      v := ScanStorages(server.storages.value);
    }

    method ScanStorages(storages: seq<Storage>) returns (v: Verdict)
      modifies this`trace
      ensures (v, trace) == (Scan(storages, isoFile).0, old(trace) + Scan(storages, isoFile).1)
    {
      ghost var before := trace;
      var k := 0;
      while k < |storages|
        invariant 0 <= k <= |storages|
        invariant Scan(storages, isoFile).0 == Scan(storages[k..], isoFile).0
        invariant before + Scan(storages, isoFile).1 == trace + Scan(storages[k..], isoFile).1
      {
        var s := storages[k];
        assert storages[k..][1..] == storages[k + 1..];
        ghost var (verdict, events) := Scan(storages[k..], isoFile);
        ghost var sent := trace;
        k := k + 1;
        if s.enabled == 0 || !Contains(s.content, "iso") {
          continue;
        }
        trace := trace + [LookedUp(s.name)];
        if s.lookup.LookupFailed? {
          trace := trace + [Listed(s.name)];
          assert trace == sent + [LookedUp(s.name), Listed(s.name)];
          if s.listing.ListingFailed? {
            return Verdict(false, Some(Unconfirmed));
          }
          if s.listing.NullListing? {
            return Verdict(false, Some(Unconfirmed));
          }
          var listed := HasVolume(s.listing.volids, VolumeId(s.name, isoFile));
          if listed {
            return Verdict(false, Some(RealLookupError));
          }
          continue;
        }
        v := AwaitRemoval(s);
        assert trace == sent + events && v == verdict;
        return;
      }
      assert storages[k..] == [] && trace + [] == trace;
      v := Verdict(true, None);
    }

    method AwaitRemoval(s: Storage) returns (v: Verdict)
      requires s.lookup.Found?
      modifies this`trace
      ensures v == RemoveIso(s) && trace == old(trace) + [IsoDeleted(s.name, DeletedVolume(s, isoFile))]
    {
      var volid := s.lookup.volid;
      if volid == "" {
        volid := VolumeId(s.name, isoFile);
      }
      trace := trace + [IsoDeleted(s.name, volid)];
      if s.removal.RemovalFailed? {
        return Verdict(false, Some(RemovalError));
      }
      if s.removal.upid == "" {
        return NilTask; // NewTask returns nil, and WaitFor reads its UPID
      }
      var task := new Task(s.removal.upid, s.removal.pings);
      var result := task.Wait(s.removal.timer);
      if !result.Finished? {
        return Verdict(false, Some(WaitError));
      }
      if !task.fields.isSuccessful {
        return Verdict(false, Some(TaskFailed));
      }
      v := Verdict(true, None);
    }

    method Delete() returns (r: Deletion)
      requires Valid()
      modifies config, this`trace
      ensures Valid()
      ensures (r, trace) ==
              var (deletion, events) := DeleteRun(Tagged(old(ConfigState())), server, isoFile);
              (deletion, old(trace) + events)
    {
      ghost var before := trace;
      var v := DeleteCloudInitISO();
      if v.NilTask? {
        return Crashed;
      }
      if v.err.Some? {
        return Returned(None, Some(GuardFailed(v.err.value)));
      }
      if !v.ok {
        return Returned(None, None);
      }
      ghost var events := Guard(Tagged(old(ConfigState())), server, isoFile).1;
      assert before + events + [VmDeleted] == before + (events + [VmDeleted]);
      trace := trace + [VmDeleted];
      if server.vmReply.None? {
        return Returned(None, Some(VmRefused));
      }
      r := Returned(NewTask(server.vmReply.value), None);
    }
  }

  // ---------------------------------------------------------- properties

  /** On every return, ok holds exactly when there is no error. */
  lemma {:induction false} OkMeansNoError(storages: seq<Storage>, file: string)
    ensures var (v, _) := Scan(storages, file); v.Verdict? ==> (v.ok <==> v.err.None?)
  {
    if storages != [] {
      OkMeansNoError(storages[1..], file);
    }
  }

  lemma GuardOkMeansNoError(tagged: bool, server: Server, file: string)
    ensures var (v, _) := Guard(tagged, server, file); v.Verdict? ==> (v.ok <==> v.err.None?)
  {
    if server.storages.Some? {
      OkMeansNoError(server.storages.value, file);
    }
  }

  /** The ISO is known not to be on this storage: the lookup failed, and a listing that has
      data does not show it. */
  predicate ConfirmedAbsent(s: Storage, file: string) {
    s.lookup.LookupFailed? && s.listing.Entries? && Some(s.name + ":iso/" + file) !in s.listing.volids
  }

  /** The storage is enabled and "iso" occurs in its content types. */
  ghost predicate Eligible(s: Storage) {
    s.enabled != 0 && exists a: string, b: string :: s.content == a + "iso" + b
  }

  lemma EligibleIff(s: Storage)
    ensures IsoCapable(s) <==> Eligible(s)
  {
    var c := s.content;
    if i :| 0 <= i <= |c| - 3 && c[i..][..3] == "iso" {
      assert c == c[..i] + "iso" + c[i..][3..];
    }
    if a: string, b: string :| c == a + "iso" + b {
      assert c[|a|..][..3] == "iso";
    }
  }

  /** The ISO was on this storage, and the answers about its delete task report a success: some
      poll within the deadline, the first not to say running, left "stopped" as the newest
      status, with exit status "OK" or "WARNINGS: " and a number. */
  ghost predicate ConfirmedRemoved(s: Storage) {
    s.lookup.Found? && s.removal.Started? && s.removal.upid != "" && ReportsSuccess(s.removal.pings, s.removal.timer)
  }

  ghost predicate AllAbsent(storages: seq<Storage>, file: string) {
    forall i | 0 <= i < |storages| && Eligible(storages[i]) :: ConfirmedAbsent(storages[i], file)
  }

  ghost predicate AbsentUntilRemoved(storages: seq<Storage>, file: string) {
    exists k | 0 <= k < |storages| ::
      Eligible(storages[k]) && ConfirmedRemoved(storages[k]) && AllAbsent(storages[..k], file)
  }

  predicate FlagFreeStorages(storages: seq<Storage>) {
    forall i | 0 <= i < |storages| && storages[i].removal.Started? :: FlagFree(storages[i].removal.pings)
  }

  lemma RemovalIsConfirmed(s: Storage)
    requires s.lookup.Found? && (s.removal.Started? ==> FlagFree(s.removal.pings))
    ensures RemoveIso(s) == Verdict(true, None) <==> ConfirmedRemoved(s)
  {
    hide ReportsSuccess, Waited;
    if s.removal.Started? {
      SuccessIsReportedIff(s.removal.pings, s.removal.timer);
    }
  }

  ghost predicate Passes(s: Storage, file: string) {
    !Eligible(s) || ConfirmedAbsent(s, file)
  }

  /** The clearing conditions of a list of storages, in terms of its head and tail. */
  lemma AllAbsentOfCons(storages: seq<Storage>, file: string)
    requires storages != []
    ensures AllAbsent(storages, file) <==> Passes(storages[0], file) && AllAbsent(storages[1..], file)
  {
    hide Eligible, ConfirmedAbsent;
    var rest := storages[1..];
    assert forall i | 0 <= i < |rest| :: rest[i] == storages[i + 1];
    assert forall i | 0 < i < |storages| :: storages[i] == rest[i - 1];
  }

  lemma RemovedOfCons(storages: seq<Storage>, file: string)
    requires storages != []
    ensures AbsentUntilRemoved(storages, file) <==>
            (Eligible(storages[0]) && ConfirmedRemoved(storages[0])) ||
            (Passes(storages[0], file) && AbsentUntilRemoved(storages[1..], file))
  {
    hide Eligible, ConfirmedAbsent, ConfirmedRemoved, AllAbsent;
    var s, rest := storages[0], storages[1..];
    forall k | 0 < k < |storages|
      ensures AllAbsent(storages[..k], file) <==> Passes(s, file) && AllAbsent(rest[..k - 1], file)
    {
      AllAbsentOfCons(storages[..k], file);
      assert storages[..k][1..] == rest[..k - 1];
    }
    NoneBefore(storages, file);
    if AbsentUntilRemoved(storages, file) {
      var k :| 0 <= k < |storages| && Eligible(storages[k]) && ConfirmedRemoved(storages[k]) && AllAbsent(storages[..k], file);
      if k > 0 {
        assert rest[k - 1] == storages[k];
      }
    }
    if Passes(s, file) && AbsentUntilRemoved(rest, file) {
      var k :| 0 <= k < |rest| && Eligible(rest[k]) && ConfirmedRemoved(rest[k]) && AllAbsent(rest[..k], file);
      assert storages[k + 1] == rest[k];
      assert AllAbsent(storages[..k + 1], file);
    }
  }

  lemma NoneBefore(storages: seq<Storage>, file: string)
    ensures AllAbsent(storages[..0], file)
  {}

  lemma {:induction false} ScanClearsIff(storages: seq<Storage>, file: string)
    requires FlagFreeStorages(storages)
    ensures Scan(storages, file).0 == Verdict(true, None)
            <==> AllAbsent(storages, file) || AbsentUntilRemoved(storages, file)
  {
    hide ConfirmedRemoved, RemoveIso, IsoCapable, Eligible;
    if storages != [] {
      EligibleIff(storages[0]);
      ScanClearsIff(storages[1..], file);
      if storages[0].lookup.Found? {
        RemovalIsConfirmed(storages[0]);
      } else {
        FailedLookupIsNoRemoval(storages[0]);
      }
      AllAbsentOfCons(storages, file);
      RemovedOfCons(storages, file);
    }
  }

  lemma FailedLookupIsNoRemoval(s: Storage)
    requires s.lookup.LookupFailed?
    ensures !ConfirmedRemoved(s)
  {}

  lemma {:induction false} ScanSendsNoVmDelete(storages: seq<Storage>, file: string)
    ensures VmDeleted !in Scan(storages, file).1
  {
    if storages != [] {
      ScanSendsNoVmDelete(storages[1..], file);
    }
  }

  /** The scan comes to storage k: it is eligible, and all eligible ones before it lack the ISO. */
  ghost predicate Reached(storages: seq<Storage>, file: string, k: int) {
    0 <= k < |storages| && Eligible(storages[k]) && AllAbsent(storages[..k], file)
  }

  /** Storage k is the first one on which the scan finds an ISO. */
  ghost predicate FirstFound(storages: seq<Storage>, file: string, k: int) {
    Reached(storages, file, k) && storages[k].lookup.Found?
  }

  lemma ReachedOfCons(storages: seq<Storage>, file: string, k: int)
    requires storages != []
    ensures Reached(storages, file, k) <==>
            if k == 0 then Eligible(storages[0])
            else Passes(storages[0], file) && Reached(storages[1..], file, k - 1)
  {
    hide Eligible, ConfirmedAbsent, AllAbsent;
    NoneBefore(storages, file);
    if 0 < k < |storages| {
      AllAbsentOfCons(storages[..k], file);
      assert storages[..k][1..] == storages[1..][..k - 1];
    }
  }

  /** The request that e stands for is due on storage s. */
  predicate Due(s: Storage, file: string, e: Event) {
    match e
    case LookedUp(storage) => storage == s.name
    case Listed(storage) => storage == s.name && s.lookup.LookupFailed?
    case IsoDeleted(storage, volid) => storage == s.name && s.lookup.Found? && volid == DeletedVolume(s, file)
    case VmDeleted => false
  }

  /** The scan sends exactly the requests that are due on the storages it comes to: the lookup
      on each, then the listing if that failed, or the deletion if it found the ISO. */
  lemma {:induction false} RequestsOfScan(storages: seq<Storage>, file: string, e: Event)
    ensures e in Scan(storages, file).1 <==> exists k :: Reached(storages, file, k) && Due(storages[k], file, e)
  {
    hide IsoCapable, Eligible, Reached;
    ReachedIndex(storages, file);
    if storages != [] {
      var s, rest := storages[0], storages[1..];
      RequestsOfScan(rest, file, e);
      ReachedIndex(rest, file);
      EligibleIff(s);
      ReachedOfCons(storages, file, 0);
      forall k | k != 0 ensures Reached(storages, file, k) <==> Passes(s, file) && Reached(rest, file, k - 1) {
        ReachedOfCons(storages, file, k);
      }
      if k :| Reached(rest, file, k) && Due(rest[k], file, e) {
        assert storages[k + 1] == rest[k] && Reached(rest, file, k + 1 - 1);
      }
      if k :| Reached(storages, file, k) && Due(storages[k], file, e) {
        assert k > 0 ==> storages[k] == rest[k - 1];
      }
    }
  }

  lemma ReachedIndex(storages: seq<Storage>, file: string)
    ensures forall k | Reached(storages, file, k) :: 0 <= k < |storages|
  {}

  /** The first storage reached on which the ISO is not confirmed absent decides the scan, and
      each way in which it can has its own result. */
  lemma {:induction false} DecidingStorage(storages: seq<Storage>, file: string, k: int)
    requires Reached(storages, file, k) && !ConfirmedAbsent(storages[k], file)
    requires storages[k].removal.Started? ==> FlagFree(storages[k].removal.pings)
    ensures var (v, s) := (Scan(storages, file).0, storages[k]);
            match s.lookup
            case LookupFailed => v == Verdict(false, Some(if s.listing.Entries? then RealLookupError else Unconfirmed))
            case Found(_) =>
              match s.removal
              case RemovalFailed => v == Verdict(false, Some(RemovalError))
              case Started(upid, pings, timer) =>
                if upid == "" then v == NilTask
                else if !Waited(NEW_FIELDS, pings, timer).0.Finished? then v == Verdict(false, Some(WaitError))
                else if !ReportsSuccess(pings, timer) then v == Verdict(false, Some(TaskFailed))
                else v == Verdict(true, None)
  {
    hide IsoCapable, Eligible, Reached, ReportsSuccess, Waited;
    ReachedIndex(storages, file);
    var s := storages[0];
    EligibleIff(s);
    ReachedOfCons(storages, file, k);
    if k > 0 {
      DecidingStorage(storages[1..], file, k - 1);
    } else if s.removal.Started? {
      SuccessIsReportedIff(s.removal.pings, s.removal.timer);
    }
  }

  /** Before the scan: without the tag all is well, and a node or its storages that cannot be
      read stop the delete. */
  lemma GuardBeforeScan(tagged: bool, server: Server, file: string)
    ensures !tagged ==> Guard(tagged, server, file) == (Verdict(true, None), [])
    ensures tagged && !server.nodeFound ==> Guard(tagged, server, file) == (Verdict(false, Some(NodeError)), [])
    ensures tagged && server.nodeFound && server.storages.None? ==>
              Guard(tagged, server, file) == (Verdict(false, Some(StoragesError)), [])
  {}

  /** Nothing but the VM's own ISO is deleted exactly when the reply of the first storage that
      has it names that ISO, or no volume at all; the library does not compare the two. */
  lemma OnlyOwnIsoIff(storages: seq<Storage>, file: string)
    ensures (forall storage, volid | IsoDeleted(storage, volid) in Scan(storages, file).1 :: volid == storage + ":iso/" + file)
            <==> forall k | FirstFound(storages, file, k) ::
                   storages[k].lookup.volid == "" || storages[k].lookup.volid == storages[k].name + ":iso/" + file
  {
    hide Scan, Reached;
    ReachedIndex(storages, file);
    forall e ensures e in Scan(storages, file).1 <==> exists k :: Reached(storages, file, k) && Due(storages[k], file, e) {
      RequestsOfScan(storages, file, e);
    }
    forall k | FirstFound(storages, file, k)
      ensures IsoDeleted(storages[k].name, DeletedVolume(storages[k], file)) in Scan(storages, file).1
    {
      assert Due(storages[k], file, IsoDeleted(storages[k].name, DeletedVolume(storages[k], file)));
    }
  }

  /** The tag is absent; or the storages could be listed, and either every enabled iso-capable
      one was confirmed not to hold the ISO, or all such storages before some k were and the
      ISO on k was seen removed. */
  ghost predicate Cleared(tagged: bool, server: Server, file: string) {
    !tagged ||
    (server.nodeFound && server.storages.Some? &&
     (AllAbsent(server.storages.value, file) || AbsentUntilRemoved(server.storages.value, file)))
  }

  /** The guard looks for ISOs exactly when "go-proxmox+cloud-init" is among the VM's tags. */
  lemma TaggedIff(config: Option<Tags.Config>)
    requires config.Some? ==> TagProofs.Consistent(config.value)
    ensures Tagged(config) <==> config.Some? && "go-proxmox+cloud-init" in TagProofs.TagList(config.value.tags)
  {
    if config.Some? {
      TagProofs.HasDecidesMembership(config.value, CLOUD_INIT_TAG);
    }
  }

  lemma GuardClearsIff(tagged: bool, server: Server, file: string)
    requires server.storages.Some? ==> FlagFreeStorages(server.storages.value)
    ensures var (v, events) := Guard(tagged, server, file);
            && VmDeleted !in events
            && (v == Verdict(true, None) <==> Cleared(tagged, server, file))
            && (v.Verdict? ==> (v.ok <==> v.err.None?))
  {
    GuardOkMeansNoError(tagged, server, file);
    if server.storages.Some? {
      ScanSendsNoVmDelete(server.storages.value, file);
      ScanClearsIff(server.storages.value, file);
    }
  }

  /** VirtualMachine.Delete asks for the VM's deletion exactly when the guard is cleared, and
      then once, as its last request. */
  lemma VmDeletedIff(tagged: bool, server: Server, file: string)
    requires server.storages.Some? ==> FlagFreeStorages(server.storages.value)
    ensures var trace := DeleteRun(tagged, server, file).1;
            && (VmDeleted in trace <==> Cleared(tagged, server, file))
            && (VmDeleted in trace ==> trace[|trace| - 1] == VmDeleted && VmDeleted !in trace[..|trace| - 1])
  {
    hide Cleared, Guard;
    GuardClearsIff(tagged, server, file);
    var (v, events) := Guard(tagged, server, file);
    assert (events + [VmDeleted])[..|events|] == events;
  }

  /** Delete returns without an error exactly when the guard was cleared and the server
      accepted the deletion; in particular it never returns nil silently from the guard. */
  lemma DeleteSucceedsIff(tagged: bool, server: Server, file: string)
    requires server.storages.Some? ==> FlagFreeStorages(server.storages.value)
    ensures var r := DeleteRun(tagged, server, file).0;
            && (r.Returned? && r.err.None? <==> Cleared(tagged, server, file) && server.vmReply.Some?)
            && (r.Returned? && r.task.Some? <==> Cleared(tagged, server, file) && server.vmReply.Some? && server.vmReply.value != "")
            && (r.Returned? && r.task.Some? ==> r.task.value.upid == server.vmReply.value)
  {
    hide Cleared, Guard;
    GuardClearsIff(tagged, server, file);
    var v := Guard(tagged, server, file).0;
    assert v.Verdict? ==> v == Verdict(v.ok, v.err);
  }
}
