/**
 * The C entry points of libvirt_api.c, each as a function of the libvirt outcomes it observes.
 * Every libvirt call is an oracle: a field of the operation's `…Replies` record says whether it
 * succeeded (and, where the code reads it, what it returned). The result is the message text the
 * C function returns, the handles it acquired and released on the way out, and the calls it made
 * that change something, with the arguments that matter.
 */
module LibvirtApi {
  import opened Wrappers
  import opened Text
  import opened MigrateFlags
  import opened Resources
  import opened Descriptor

  /** Calls into libvirt (and, for the image copy and the viewer, into the system) that act. */
  datatype Call =
    | DomainCreate | DomainDestroy | DomainSuspend | DomainResume | DomainReboot | DomainUndefine
    | DomainDefine(descriptor: string)
    | DomainMigrate(flags: set<Flag>)
    | VolumeCreate(volumeName: string)
    | VolumeLookup(path: string)
    | VolumeDelete
    | SnapshotCreate(snapshotXml: string)
    | SnapshotRevert(snapshot: string)
    | ImageCopy(from: string, to: string)
    | ViewerLaunch(uri: string, domainName: string)

  /** What a C entry point returns, and what it did on the way. */
  datatype Run = Run(message: string, handles: Handles, calls: seq<Call>)

  /** `e ? e->message : fallback` on the result of `virGetLastError()`. */
  function ErrorText(lastError: Option<string>, fallback: string): string {
    lastError.GetOr(fallback)
  }

  /** The failure reports the C functions write themselves all begin with "Erreur". */
  predicate IsError(m: string) {
    |m| >= 6 && m[..6] == "Erreur"
  }

  /** The failure reports `console_vm` writes are JSON objects with an "error" member. */
  predicate IsJsonError(m: string) {
    |m| >= 9 && m[..9] == "{\"error\":"
  }

  /** A failure report written by the C code itself: "Erreur" and then the detail. */
  function Failure(detail: string): (m: string)
    ensures IsError(m)
  {
    var m := "Erreur" + detail;
    assert m[..6] == "Erreur";
    m
  }

  /** A JSON failure report: an object whose only member is "error". */
  function JsonFailure(detail: string): (m: string)
    ensures IsJsonError(m)
  {
    var m := "{\"error\":\"" + detail + "\"}";
    assert m[..9] == "{\"error\":";
    m
  }

  /** `virDomainState` values the code tests. */
  const StateRunning := 1
  const StatePaused := 3
  const StateShutoff := 5

  // ---------------------------------------------------------------------------------------
  // migrate_vm
  // ---------------------------------------------------------------------------------------

  datatype MigrateReplies = MigrateReplies(
    srcOpens: bool, destOpens: bool, domainFound: bool, migrated: bool, lastError: Option<string>)

  const MigrationDone := "Migration effectuée avec succès"

  /** The success report is not a failure report. */
  lemma MigrationDoneIsNoError()
    ensures !IsError(MigrationDone)
  {
    assert MigrationDone[..6][0] == 'M';
  }

  /**
   * `migrate_vm` (libvirt_api.c:651-706): open the source, open the destination, look the domain
   * up, migrate with the fixed flags; every exit releases what it acquired, newest first, and
   * reports libvirt's last error in preference to its own text.
   */
  function MigrateVm(o: MigrateReplies): (r: Run)
    ensures ReleasedInReverse(r.handles)
    ensures NewDomain in r.handles.acquired <==> o.srcOpens && o.destOpens && o.domainFound && o.migrated
    ensures r.calls == if o.srcOpens && o.destOpens && o.domainFound then [DomainMigrate(UnsafeLiveMove)] else []
    ensures r.message == MigrationDone <== o.srcOpens && o.destOpens && o.domainFound && o.migrated
    ensures o.lastError.None? ==> (IsError(r.message) <==> !(o.srcOpens && o.destOpens && o.domainFound && o.migrated))
    ensures !o.srcOpens ==> r.message == ErrorText(o.lastError, Failure(" : impossible de se connecter à la source"))
    ensures o.srcOpens && !o.destOpens ==>
      r.message == ErrorText(o.lastError, Failure(" : impossible de se connecter à la destination"))
    ensures o.srcOpens && o.destOpens && !o.domainFound ==> r.message == ErrorText(o.lastError, Failure(" : VM introuvable"))
    ensures o.srcOpens && o.destOpens && o.domainFound && !o.migrated ==>
      r.message == ErrorText(o.lastError, Failure(" : migration impossible"))
  {
    if !o.srcOpens then
      Run(ErrorText(o.lastError, Failure(" : impossible de se connecter à la source")), NoHandles, [])
    else if !o.destOpens then
      Run(ErrorText(o.lastError, Failure(" : impossible de se connecter à la destination")),
          Handles([SourceConnection], [SourceConnection]), [])
    else if !o.domainFound then
      Run(ErrorText(o.lastError, Failure(" : VM introuvable")),
          Handles([SourceConnection, DestConnection], [DestConnection, SourceConnection]), [])
    else if !o.migrated then
      Run(ErrorText(o.lastError, Failure(" : migration impossible")),
          Handles([SourceConnection, DestConnection, Domain], [Domain, DestConnection, SourceConnection]),
          [DomainMigrate(UnsafeLiveMove)])
    else
      MigrationDoneIsNoError();
      Run(MigrationDone,
          Handles([SourceConnection, DestConnection, Domain, NewDomain],
                  [NewDomain, Domain, DestConnection, SourceConnection]),
          [DomainMigrate(UnsafeLiveMove)])
  }

  // ---------------------------------------------------------------------------------------
  // revert_snapshot, snapshot_vm
  // ---------------------------------------------------------------------------------------

  datatype RevertReplies = RevertReplies(opens: bool, domainFound: bool, snapshotFound: bool, reverted: bool)

  /** The message `revert_snapshot` returns when the revert succeeds (libvirt_api.c:95). */
  function Reverted(name: string, snap: string): (m: string)
    ensures !IsError(m)
  {
    var m := "Snapshot " + snap + " restauré pour la VM " + name + ".";
    assert |m| >= 6 ==> m[..6][0] == m[0] == 'S';
    m
  }

  /**
   * `revert_snapshot` (libvirt_api.c:63-101): connection, domain and snapshot handles are
   * released newest first on every path; the revert is attempted only on a snapshot found.
   */
  function RevertSnapshot(uri: string, name: string, snap: string, o: RevertReplies): (r: Run)
    ensures ReleasedInReverse(r.handles)
    ensures r.calls == if o.opens && o.domainFound && o.snapshotFound then [SnapshotRevert(snap)] else []
    ensures !IsError(r.message) <==> o.opens && o.domainFound && o.snapshotFound && o.reverted
    ensures o.opens && o.domainFound && o.snapshotFound && o.reverted ==> r.message == Reverted(name, snap)
    ensures !o.opens ==> r.message == Failure(" : impossible de se connecter à " + uri)
    ensures o.opens && !o.domainFound ==> r.message == Failure(" : VM " + name + " introuvable")
    ensures o.opens && o.domainFound && !o.snapshotFound ==> r.message == Failure(" : snapshot " + snap + " introuvable")
    ensures o.opens && o.domainFound && o.snapshotFound && !o.reverted ==>
      r.message == Failure(" : impossible de restaurer le snapshot " + snap)
  {
    if !o.opens then
      Run(Failure(" : impossible de se connecter à " + uri), NoHandles, [])
    else if !o.domainFound then
      Run(Failure(" : VM " + name + " introuvable"), Handles([Connection], [Connection]), [])
    else if !o.snapshotFound then
      Run(Failure(" : snapshot " + snap + " introuvable"), Handles([Connection, Domain], [Domain, Connection]), [])
    else
      Run(if o.reverted then Reverted(name, snap) else Failure(" : impossible de restaurer le snapshot " + snap),
          Handles([Connection, Domain, Snapshot], [Snapshot, Domain, Connection]),
          [SnapshotRevert(snap)])
  }

  datatype SnapshotReplies = SnapshotReplies(opens: bool, domainFound: bool, created: bool, lastError: Option<string>)

  /** The snapshot descriptor `snapshot_vm` sends (libvirt_api.c:119-125). */
  function SnapshotXml(snap: string): string {
    "<domainsnapshot>  " + NameOpen + snap + NameClose + "</domainsnapshot>"
  }

  /** The snapshot descriptor names the requested snapshot, whatever its name (short of a `</name>` in it). */
  lemma SnapshotXmlNamesSnapshot(snap: string)
    requires !Occurs(NameClose, snap)
    ensures ElementText(SnapshotXml(snap), NameOpen, NameClose) == Some(snap)
  {
    var lead := "<domainsnapshot>  ";
    forall j | 0 <= j <= |lead|
      ensures !MatchAt(lead, NameOpen, j)
    {
      if j + |NameOpen| <= |lead| {
        assert lead[j..j + |NameOpen|][1] != NameOpen[1] || lead[j..j + |NameOpen|][0] != NameOpen[0];
      }
    }
    TagsWellFormed();
    ElementTextAt(lead, NameOpen, snap, NameClose, "</domainsnapshot>");
  }

  /** The message `snapshot_vm` returns once the domain is found and the snapshot is taken (libvirt_api.c:135). */
  function SnapshotTaken(name: string, snap: string): (m: string)
    ensures !IsError(m)
  {
    var m := "Snapshot " + snap + " créé pour la VM " + name + ".";
    assert |m| >= 6 ==> m[..6][0] == m[0] == 'S';
    m
  }

  /** The message `snapshot_vm` means to return when libvirt refuses the snapshot. */
  function SnapshotRefused(lastError: Option<string>): string {
    Failure(" : snapshot impossible (" + ErrorText(lastError, "inconnu") + ")")
  }

  /**
   * `snapshot_vm` as written (libvirt_api.c:103-140). `virDomainSnapshotCreateXML` returns a
   * snapshot pointer and the code tests it with `< 0`, which holds for no pointer, NULL
   * included: a failed creation is reported as a success, and the handle of a successful one
   * is never freed.
   */
  function SnapshotVm(uri: string, name: string, snap: string, o: SnapshotReplies): (r: Run)
    ensures o.opens && o.domainFound ==> r.calls == [SnapshotCreate(SnapshotXml(snap))]
    ensures o.opens && o.domainFound ==> r.message == SnapshotTaken(name, snap)
    ensures IsError(r.message) <==> !(o.opens && o.domainFound)
    ensures o.opens && o.domainFound && o.created ==> Leaks(r.handles, Snapshot)
    ensures !(o.opens && o.domainFound && o.created) ==> ReleasedInReverse(r.handles)
    ensures !o.opens ==> r.message == Failure(" : impossible de se connecter à " + uri)
    ensures o.opens && !o.domainFound ==> r.message == Failure(" : VM " + name + " introuvable")
  {
    if !o.opens then
      Run(Failure(" : impossible de se connecter à " + uri), NoHandles, [])
    else if !o.domainFound then
      Run(Failure(" : VM " + name + " introuvable"), Handles([Connection], [Connection]), [])
    else if o.created then
      Run(SnapshotTaken(name, snap), Handles([Connection, Domain, Snapshot], [Domain, Connection]),
          [SnapshotCreate(SnapshotXml(snap))])
    else
      Run(SnapshotTaken(name, snap), Handles([Connection, Domain], [Domain, Connection]),
          [SnapshotCreate(SnapshotXml(snap))])
  }

  /**
   * `snapshot_vm` with the NULL test it evidently means: a failed creation is reported with the
   * last error, and a created snapshot's handle is freed before the domain's.
   */
  function SnapshotVmChecked(uri: string, name: string, snap: string, o: SnapshotReplies): (r: Run)
    ensures ReleasedInReverse(r.handles)
    ensures o.opens && o.domainFound ==> r.calls == [SnapshotCreate(SnapshotXml(snap))]
    ensures !IsError(r.message) <==> o.opens && o.domainFound && o.created
    ensures o.opens && o.domainFound && o.created ==> r.message == SnapshotTaken(name, snap)
    ensures o.opens && o.domainFound && !o.created ==> r.message == SnapshotRefused(o.lastError)
  {
    if !o.opens then
      Run(Failure(" : impossible de se connecter à " + uri), NoHandles, [])
    else if !o.domainFound then
      Run(Failure(" : VM " + name + " introuvable"), Handles([Connection], [Connection]), [])
    else if o.created then
      Run(SnapshotTaken(name, snap), Handles([Connection, Domain, Snapshot], [Snapshot, Domain, Connection]),
          [SnapshotCreate(SnapshotXml(snap))])
    else
      Run(SnapshotRefused(o.lastError), Handles([Connection, Domain], [Domain, Connection]),
          [SnapshotCreate(SnapshotXml(snap))])
  }

  /** On a failed creation the code as written claims success and the checked version does not. */
  lemma SnapshotFailureUnreported(uri: string, name: string, snap: string, err: Option<string>)
    ensures var o := SnapshotReplies(true, true, false, err);
      && !IsError(SnapshotVm(uri, name, snap, o).message)
      && IsError(SnapshotVmChecked(uri, name, snap, o).message)
  {
  }

  // ---------------------------------------------------------------------------------------
  // start_vm, stop_vm, pause_vm, resume_vm, restart_vm
  // ---------------------------------------------------------------------------------------

  datatype Lifecycle = Start | Stop | Pause | Resume

  /** The libvirt call behind each lifecycle entry point. */
  function LifecycleCall(l: Lifecycle): Call {
    match l
    case Start => DomainCreate
    case Stop => DomainDestroy
    case Pause => DomainSuspend
    case Resume => DomainResume
  }

  /** The fixed message each lifecycle entry point returns. */
  function LifecycleMessage(l: Lifecycle, name: string): (m: string)
    ensures !IsError(m)
  {
    var m := match l
      case Start => "VM " + name + " démarrée."
      case Stop => "VM " + name + " arrêtée."
      case Pause => "VM " + name + " mise en pause."
      case Resume => "VM " + name + " reprise.";
    assert |m| >= 6 ==> m[..6][0] == m[0] == 'V';
    m
  }

  /**
   * `start_vm`, `stop_vm`, `pause_vm`, `resume_vm` (libvirt_api.c:364-410): no result is
   * checked. When the connection or the lookup fails, the NULL handle flows into the next calls,
   * which libvirt rejects without acting; the message is the same either way.
   */
  function LifecycleVm(name: string, l: Lifecycle, opens: bool, found: bool): (r: Run)
    ensures ReleasedInReverse(r.handles)
    ensures r.calls == if opens && found then [LifecycleCall(l)] else []
    ensures r.message == LifecycleMessage(l, name) && !IsError(r.message)
  {
    if !opens then Run(LifecycleMessage(l, name), NoHandles, [])
    else if !found then Run(LifecycleMessage(l, name), Handles([Connection], [Connection]), [])
    else Run(LifecycleMessage(l, name), Handles([Connection, Domain], [Domain, Connection]), [LifecycleCall(l)])
  }

  datatype RebootReplies = RebootReplies(opens: bool, found: bool, rebooted: bool, lastError: Option<string>)

  /** The message `restart_vm` returns when the reboot is accepted (libvirt_api.c:166). */
  function Restarted(name: string): (m: string)
    ensures !IsError(m)
  {
    var m := "VM " + name + " redémarrée.";
    assert |m| >= 6 ==> m[..6][0] == m[0] == 'V';
    m
  }

  /** `restart_vm` (libvirt_api.c:142-171). */
  function RestartVm(uri: string, name: string, o: RebootReplies): (r: Run)
    ensures ReleasedInReverse(r.handles)
    ensures r.calls == if o.opens && o.found then [DomainReboot] else []
    ensures !IsError(r.message) <==> o.opens && o.found && o.rebooted
    ensures o.opens && o.found && o.rebooted ==> r.message == Restarted(name)
    ensures !o.opens ==> r.message == Failure(" : impossible de se connecter à " + uri)
    ensures o.opens && !o.found ==> r.message == Failure(" : VM " + name + " introuvable")
    ensures o.opens && o.found && !o.rebooted ==>
      r.message == Failure(" : échec reboot " + name + " (" + ErrorText(o.lastError, "unknown") + ")")
  {
    if !o.opens then Run(Failure(" : impossible de se connecter à " + uri), NoHandles, [])
    else if !o.found then Run(Failure(" : VM " + name + " introuvable"), Handles([Connection], [Connection]), [])
    else
      Run(if o.rebooted then Restarted(name)
          else Failure(" : échec reboot " + name + " (" + ErrorText(o.lastError, "unknown") + ")"),
          Handles([Connection, Domain], [Domain, Connection]), [DomainReboot])
  }

  // ---------------------------------------------------------------------------------------
  // create_vm
  // ---------------------------------------------------------------------------------------

  /** `%d` of an `int`: a minus sign for a negative value, then the decimal digits. */
  function DecimalText(n: int): (s: string)
    ensures |s| > 0
    ensures n < 0 <==> s[0] == '-'
    ensures n >= 0 ==> forall i :: 0 <= i < |s| ==> '0' <= s[i] <= '9'
    ensures n < 0 ==> forall i :: 1 <= i < |s| ==> '0' <= s[i] <= '9'
    decreases if n < 0 then 1 - n else n
  {
    if n < 0 then "-" + DecimalText(-n)
    else if n < 10 then [Digit(n)]
    else DecimalText(n / 10) + [Digit(n % 10)]
  }

  /** The character of one decimal digit. */
  function Digit(d: int): (c: char)
    requires 0 <= d < 10
    ensures '0' <= c <= '9' && (c as int) - ('0' as int) == d
  {
    (('0' as int) + d) as char
  }

  /** The value of a string of decimal digits, most significant first. */
  function DigitsValue(s: string): nat
    requires forall i :: 0 <= i < |s| ==> '0' <= s[i] <= '9'
  {
    if |s| == 0 then 0
    else DigitsValue(s[..|s| - 1]) * 10 + ((s[|s| - 1] as int) - ('0' as int))
  }

  /** Reading `%d`'s output back: an optional minus sign, then digits. */
  function ParseDecimal(s: string): int
    requires |s| > 0
    requires forall i :: (if s[0] == '-' then 1 else 0) <= i < |s| ==> '0' <= s[i] <= '9'
  {
    if s[0] == '-' then -(DigitsValue(s[1..]) as int) else DigitsValue(s)
  }

  /** `%d` loses nothing: the text reads back as the number printed. */
  lemma {:induction false} DecimalTextReadsBack(n: int)
    ensures ParseDecimal(DecimalText(n)) == n
    decreases if n < 0 then 1 - n else n
  {
    var s := DecimalText(n);
    if n < 0 {
      DecimalTextReadsBack(-n);
      assert s[1..] == DecimalText(-n);
      assert ParseDecimal(DecimalText(-n)) == DigitsValue(DecimalText(-n));
    } else if n >= 10 {
      DecimalTextReadsBack(n / 10);
      var front := DecimalText(n / 10);
      assert s[..|s| - 1] == front;
      assert s[|s| - 1] == Digit(n % 10);
      assert ParseDecimal(front) == DigitsValue(front) == n / 10;
      assert DigitsValue(s) == (n / 10) * 10 + n % 10;
    } else {
      assert s == [Digit(n)];
      assert DigitsValue(s[..0]) == 0;
      assert DigitsValue(s) == n;
    }
  }

  datatype CreateReplies = CreateReplies(opens: bool, poolFound: bool, volumeCreated: bool, defined: bool, started: bool)

  /** The message `create_vm` returns on success. */
  function Created(name: string, ramMb: int, vcpu: int, sizeGb: int): (m: string)
    ensures !IsError(m)
  {
    var m := "VM " + name + " créée avec succès (RAM=" + DecimalText(ramMb) + "MB, CPU=" + DecimalText(vcpu)
             + ", DISK=" + DecimalText(sizeGb) + "G)";
    assert |m| >= 6 ==> m[..6][0] == m[0] == 'V';
    m
  }

  /**
   * `create_vm` (libvirt_api.c:244-360), from the numbers `atoi` produced. The path string from
   * `virStorageVolGetPath` is never freed; when the new domain fails to start it is undefined and
   * its volume deleted, but its handle is never freed.
   */
  function CreateVm(uri: string, name: string, ramMb: int, vcpu: int, sizeGb: int, o: CreateReplies): (r: Run)
    ensures !(o.opens && o.poolFound && o.volumeCreated) ==> ReleasedInReverse(r.handles)
    ensures o.opens && o.poolFound && o.volumeCreated ==> Leaks(r.handles, VolumePath)
    ensures Leaks(r.handles, Domain) <==> o.opens && o.poolFound && o.volumeCreated && o.defined && !o.started
    ensures forall x :: x in r.handles.acquired && x != VolumePath && x != Domain ==> x in r.handles.released
    ensures o.opens && o.poolFound ==> |r.calls| > 0 && r.calls[0] == VolumeCreate(name + ".qcow2")
    ensures DomainCreate in r.calls <==> o.opens && o.poolFound && o.volumeCreated && o.defined
    ensures DomainUndefine in r.calls <==> o.opens && o.poolFound && o.volumeCreated && o.defined && !o.started
    ensures VolumeDelete in r.calls <==> o.opens && o.poolFound && o.volumeCreated && o.defined && !o.started
    ensures !IsError(r.message) <==> o.opens && o.poolFound && o.volumeCreated && o.defined && o.started
    ensures o.opens && o.poolFound && o.volumeCreated && o.defined && o.started ==>
      r.message == Created(name, ramMb, vcpu, sizeGb)
  {
    var volumeCreate := VolumeCreate(name + ".qcow2");
    if !o.opens then
      Run(Failure(" : impossible de se connecter à " + uri), NoHandles, [])
    else if !o.poolFound then
      Run(Failure(" : pool 'default' introuvable"), Handles([Connection], [Connection]), [])
    else if !o.volumeCreated then
      Run(Failure(" : création du volume QCOW2"), Handles([Connection, Pool], [Pool, Connection]), [volumeCreate])
    else if !o.defined then
      Run(Failure(" : defineXML a échoué"),
          Handles([Connection, Pool, Volume, VolumePath], [Volume, Pool, Connection]),
          [volumeCreate, DomainDefine(CreateDescriptorText)])
    else if !o.started then
      Run(Failure(" : impossible de démarrer la VM"),
          Handles([Connection, Pool, Volume, VolumePath, Domain], [Volume, Pool, Connection]),
          [volumeCreate, DomainDefine(CreateDescriptorText), DomainCreate, DomainUndefine, VolumeDelete])
    else
      Run(Created(name, ramMb, vcpu, sizeGb),
          Handles([Connection, Pool, Volume, VolumePath, Domain], [Domain, Volume, Pool, Connection]),
          [volumeCreate, DomainDefine(CreateDescriptorText), DomainCreate])
  }

  /**
   * Stands for the domain descriptor `create_vm` formats from its parameters and the volume
   * path; its text is not modelled.
   */
  const CreateDescriptorText := "<domain type='kvm'>"

  // ---------------------------------------------------------------------------------------
  // destroy_vm
  // ---------------------------------------------------------------------------------------

  datatype DestroyReplies = DestroyReplies(opens: bool, found: bool, descriptor: string, poolFound: bool, volumeFound: bool)

  /** The disk path `destroy_vm` works with: the extracted run, or the zero-filled buffer's empty string. */
  function DestroyDiskPath(xml: string): (p: string)
    ensures Occurs(SourceMarker, xml) ==> ExtractDiskPath(xml) == Some(p)
    ensures !Occurs(SourceMarker, xml) ==> p == ""
  {
    ExtractDiskPath(xml).GetOr("")
  }

  /** The message `destroy_vm` returns once the domain is found (libvirt_api.c:471). */
  function Deleted(name: string): (m: string)
    ensures !IsError(m)
  {
    var m := "VM " + name + " supprimée.";
    assert |m| >= 6 ==> m[..6][0] == m[0] == 'V';
    m
  }

  /**
   * `destroy_vm` (libvirt_api.c:424-473): once the domain is found it is destroyed and
   * undefined, and the volume deletion is best effort; the message is the success message
   * whatever those calls did.
   */
  function DestroyVm(uri: string, name: string, o: DestroyReplies): (r: Run)
    ensures ReleasedInReverse(r.handles)
    ensures !o.opens ==> r.handles == NoHandles && r.message == Failure(": connexion libvirt")
    ensures o.opens && !o.found ==> r.message == Failure(": VM introuvable") && r.calls == []
    ensures o.opens && o.found ==> r.message == Deleted(name)
    ensures IsError(r.message) <==> !(o.opens && o.found)
    ensures o.opens && o.found ==> |r.calls| >= 2 && r.calls[..2] == [DomainDestroy, DomainUndefine]
    ensures VolumeLookup(DestroyDiskPath(o.descriptor)) in r.calls <==>
      o.opens && o.found && DestroyDiskPath(o.descriptor) != "" && o.poolFound
    ensures VolumeDelete in r.calls <==>
      o.opens && o.found && DestroyDiskPath(o.descriptor) != "" && o.poolFound && o.volumeFound
    ensures forall p :: VolumeLookup(p) in r.calls ==> p == DestroyDiskPath(o.descriptor)
  {
    if !o.opens then
      Run(Failure(": connexion libvirt"), NoHandles, [])
    else if !o.found then
      Run(Failure(": VM introuvable"), Handles([Connection], [Connection]), [])
    else
      DestroyFound(name, DestroyDiskPath(o.descriptor), o.poolFound, o.volumeFound)
  }

  /**
   * The part of `destroy_vm` after the domain is found (libvirt_api.c:443-472): destroy and
   * undefine, then a best-effort deletion of the volume at `path`.
   */
  function DestroyFound(name: string, path: string, poolFound: bool, volumeFound: bool): (r: Run)
    ensures ReleasedInReverse(r.handles)
    ensures r.message == Deleted(name)
    ensures |r.calls| >= 2 && r.calls[..2] == [DomainDestroy, DomainUndefine]
    ensures VolumeLookup(path) in r.calls <==> path != "" && poolFound
    ensures VolumeDelete in r.calls <==> path != "" && poolFound && volumeFound
    ensures forall p :: VolumeLookup(p) in r.calls ==> p == path
  {
    if path == "" || !poolFound then
      Run(Deleted(name), Nested([Connection, Domain, XmlText]), [DomainDestroy, DomainUndefine])
    else if !volumeFound then
      Run(Deleted(name), Nested([Connection, Domain, XmlText, Pool]),
          [DomainDestroy, DomainUndefine, VolumeLookup(path)])
    else
      Run(Deleted(name), Nested([Connection, Domain, XmlText, Pool, Volume]),
          [DomainDestroy, DomainUndefine, VolumeLookup(path), VolumeDelete])
  }

  // ---------------------------------------------------------------------------------------
  // console_vm
  // ---------------------------------------------------------------------------------------

  datatype ConsoleReplies = ConsoleReplies(opens: bool, found: bool, state: Option<int>, started: bool)

  /** The reply of `console_vm` once the viewer is launched. */
  function ConsoleOpened(name: string): (m: string)
    ensures !IsJsonError(m)
  {
    var m := "{\"message\":\"Console ouverte pour " + name + "\", \"url\": \"\"}";
    assert m[..9][2] == m[2] == 'm';
    m
  }

  /**
   * `console_vm` (libvirt_api.c:483-535): a domain that is not running is started first; the
   * viewer is launched only for a running or successfully started domain.
   */
  function ConsoleVm(uri: string, name: string, o: ConsoleReplies): (r: Run)
    ensures ReleasedInReverse(r.handles)
    ensures DomainCreate in r.calls <==> o.opens && o.found && o.state.Some? && o.state.value != StateRunning
    ensures ViewerLaunch(uri, name) in r.calls <==>
      o.opens && o.found && o.state.Some? && (o.state.value == StateRunning || o.started)
    ensures forall c :: c in r.calls ==> c == DomainCreate || c == ViewerLaunch(uri, name)
    ensures !IsJsonError(r.message) <==> ViewerLaunch(uri, name) in r.calls
    ensures ViewerLaunch(uri, name) in r.calls ==> r.message == ConsoleOpened(name)
    ensures DomainCreate in r.calls && ViewerLaunch(uri, name) in r.calls ==>
      r.calls == [DomainCreate, ViewerLaunch(uri, name)]
  {
    if !o.opens then
      Run(JsonFailure("Impossible de se connecter à " + uri), NoHandles, [])
    else if !o.found then
      Run(JsonFailure("VM " + name + " introuvable"), Handles([Connection], [Connection]), [])
    else if o.state.None? then
      Run(JsonFailure("Impossible de lire l'état"), Handles([Connection, Domain], [Domain, Connection]), [])
    else if o.state.value == StateRunning then
      Run(ConsoleOpened(name), Handles([Connection, Domain], [Domain, Connection]), [ViewerLaunch(uri, name)])
    else if !o.started then
      Run(JsonFailure("Impossible de démarrer " + name),
          Handles([Connection, Domain], [Domain, Connection]), [DomainCreate])
    else
      Run(ConsoleOpened(name), Handles([Connection, Domain], [Domain, Connection]),
          [DomainCreate, ViewerLaunch(uri, name)])
  }

  // ---------------------------------------------------------------------------------------
  // clone_vm
  // ---------------------------------------------------------------------------------------

  datatype CloneReplies = CloneReplies(opens: bool, sourceFound: bool, descriptor: Option<string>, defined: bool)

  /** A clone either returns, or is still inside the substitution loop when the fuel runs out. */
  datatype CloneRun = Finished(run: Run) | StillLooping(handles: Handles, calls: seq<Call>)

  /** The calls a clone run made, whether or not it returned. */
  function CloneCalls(r: CloneRun): seq<Call> {
    match r
    case Finished(run) => run.calls
    case StillLooping(_, calls) => calls
  }

  /** The message `clone_vm` returns on success. */
  function Cloned(srcName: string, dstName: string): (m: string)
    ensures !IsError(m)
  {
    var m := "Clone créé avec succès : " + srcName + " → " + dstName;
    assert m[..6][0] == m[0] == 'C';
    m
  }

  /**
   * `clone_vm` (libvirt_api.c:538-646), with `fuel` bounding the substitution loop. The image
   * copy's exit status is not looked at; the rewritten descriptor is defined; the new domain's
   * start result is not looked at.
   */
  function CloneVm(uri: string, srcName: string, dstName: string, o: CloneReplies, fuel: nat): (r: CloneRun)
    ensures r.StillLooping? <==>
      && o.opens && o.sourceFound && o.descriptor.Some? && ExtractDiskPath(o.descriptor.value).Some?
      && CloneDescriptor(o.descriptor.value, dstName, ExtractDiskPath(o.descriptor.value).value, fuel).None?
    ensures r.Finished? && NewDomain !in r.run.handles.acquired ==> ReleasedInReverse(r.run.handles)
    ensures r.Finished? && NewDomain in r.run.handles.acquired ==> !ReleasedInReverse(r.run.handles)
    ensures r.Finished? ==> (NewDomain in r.run.handles.acquired <==> !IsError(r.run.message))
    ensures r.Finished? && NewDomain in r.run.handles.acquired ==> r.run.message == Cloned(srcName, dstName)
    ensures r.Finished? && NewDomain in r.run.handles.acquired ==>
      r.run.handles.released == [XmlText, NewDomain, Domain, Connection]
    ensures o.opens && o.sourceFound && o.descriptor.Some? && ExtractDiskPath(o.descriptor.value).None? ==>
      r == Finished(Run(Failure(": disque source introuvable dans XML"),
                        Handles([Connection, Domain, XmlText], [XmlText, Domain, Connection]), []))
  {
    if !o.opens then
      Finished(Run(Failure(": connexion libvirt"), NoHandles, []))
    else if !o.sourceFound then
      Finished(Run(Failure(": VM source introuvable"), Handles([Connection], [Connection]), []))
    else if o.descriptor.None? then
      Finished(Run(Failure(": impossible de lire XML source"), Handles([Connection, Domain], [Domain, Connection]), []))
    else
      var xml := o.descriptor.value;
      match ExtractDiskPath(xml)
      case None =>
        Finished(Run(Failure(": disque source introuvable dans XML"),
                     Handles([Connection, Domain, XmlText], [XmlText, Domain, Connection]), []))
      case Some(oldDisk) => CloneWithDisk(srcName, dstName, xml, oldDisk, o.defined, fuel)
  }

  /**
   * The part of `clone_vm` after the source's disk path is found (libvirt_api.c:575-645): the
   * image copy, the descriptor rewrite, the definition and the start of the clone.
   */
  function CloneWithDisk(srcName: string, dstName: string, xml: string, oldDisk: string, defined: bool, fuel: nat): (r: CloneRun)
    ensures r.StillLooping? <==> CloneDescriptor(xml, dstName, oldDisk, fuel).None?
    ensures r.Finished? && NewDomain !in r.run.handles.acquired ==> ReleasedInReverse(r.run.handles)
    ensures r.Finished? && NewDomain in r.run.handles.acquired ==> !ReleasedInReverse(r.run.handles)
    ensures r.Finished? ==> (NewDomain in r.run.handles.acquired <==> !IsError(r.run.message))
    ensures r.Finished? && NewDomain in r.run.handles.acquired ==> r.run.message == Cloned(srcName, dstName)
    ensures r.Finished? && NewDomain in r.run.handles.acquired ==>
      r.run.handles.released == [XmlText, NewDomain, Domain, Connection]
  {
    var copy := ImageCopy(oldDisk, NewDiskPath(dstName));
    match CloneDescriptor(xml, dstName, oldDisk, fuel)
    case None =>
      StillLooping(Handles([Connection, Domain, XmlText], []), [copy])
    case Some(newXml) =>
      if !defined then
        Finished(Run(Failure(": impossible de créer VM clone"),
                     Handles([Connection, Domain, XmlText], [XmlText, Domain, Connection]),
                     [copy, DomainDefine(newXml)]))
      else
        // The clone's handle is freed second, not first.
        var h := Handles([Connection, Domain, XmlText, NewDomain], [XmlText, NewDomain, Domain, Connection]);
        assert h.released[0] != h.acquired[|h.acquired| - 1];
        Finished(Run(Cloned(srcName, dstName), h, [copy, DomainDefine(newXml), DomainCreate]))
  }

  /**
   * The descriptor a clone defines is the source's, renamed, without its UUID, and with no
   * occurrence of the source's disk path left.
   */
  lemma CloneDefinesRewritten(uri: string, srcName: string, dstName: string, o: CloneReplies, fuel: nat, x: string)
    ensures DomainDefine(x) in CloneCalls(CloneVm(uri, srcName, dstName, o, fuel)) ==>
      && o.descriptor.Some? && ExtractDiskPath(o.descriptor.value).Some?
      && !Occurs(ExtractDiskPath(o.descriptor.value).value, x)
      && Some(x) == CloneDescriptor(o.descriptor.value, dstName, ExtractDiskPath(o.descriptor.value).value, fuel)
  {
    if o.opens && o.sourceFound && o.descriptor.Some? && ExtractDiskPath(o.descriptor.value).Some? {
      var xml := o.descriptor.value;
      if DomainDefine(x) in CloneCalls(CloneVm(uri, srcName, dstName, o, fuel)) {
        CloneWithDiskDefines(srcName, dstName, xml, ExtractDiskPath(xml).value, o.defined, fuel, x);
      }
    }
  }

  /** The image copy goes from the source's disk path to the clone's image path. */
  lemma CloneCopiesImage(uri: string, srcName: string, dstName: string, o: CloneReplies, fuel: nat, f: string, t: string)
    ensures ImageCopy(f, t) in CloneCalls(CloneVm(uri, srcName, dstName, o, fuel)) ==>
      && t == NewDiskPath(dstName)
      && o.descriptor.Some? && ExtractDiskPath(o.descriptor.value) == Some(f)
  {
    if o.opens && o.sourceFound && o.descriptor.Some? && ExtractDiskPath(o.descriptor.value).Some? {
      var xml := o.descriptor.value;
      if ImageCopy(f, t) in CloneCalls(CloneVm(uri, srcName, dstName, o, fuel)) {
        CloneWithDiskCopies(srcName, dstName, xml, ExtractDiskPath(xml).value, o.defined, fuel, f, t);
      }
    }
  }

  /**
   * For a single-disk source descriptor `p<name>n</name>q<uuid>u</uuid>r` + disk path + `t`, the
   * clone copies the image and then defines `p<name>dst</name>qr` + the clone's image path + `t`.
   */
  lemma CloneDefinesLayout(uri: string, srcName: string, dstName: string, xml: string, defined: bool, fuel: nat,
                           p: string, n: string, q: string, u: string, r: string, oldDisk: string, t: string)
    requires xml == p + NameOpen + n + NameClose + q + UuidOpen + u + UuidClose + r + oldDisk + t
    requires ExtractDiskPath(xml) == Some(oldDisk)
    requires !Occurs(NameOpen, p) && !Occurs(NameClose, n)
    requires !Occurs(UuidOpen, p + NameOpen + dstName + NameClose + q) && !Occurs(UuidClose, u)
    requires Find(p + NameOpen + dstName + NameClose + q + r + oldDisk + t, oldDisk)
          == Some(|p + NameOpen + dstName + NameClose + q + r|)
    requires !Occurs(oldDisk, p + NameOpen + dstName + NameClose + q + r + NewDiskPath(dstName) + t)
    requires fuel >= 1
    ensures var calls := CloneCalls(CloneVm(uri, srcName, dstName, CloneReplies(true, true, Some(xml), defined), fuel));
      && |calls| >= 2
      && calls[0] == ImageCopy(oldDisk, NewDiskPath(dstName))
      && calls[1] == DomainDefine(p + NameOpen + dstName + NameClose + q + r + NewDiskPath(dstName) + t)
  {
    CloneDescriptorOfLayout(p, n, q, u, r, t, dstName, oldDisk, fuel);
    CloneWithDiskCalls(srcName, dstName, xml, oldDisk, defined, fuel,
                       p + NameOpen + dstName + NameClose + q + r + NewDiskPath(dstName) + t);
  }

  /** Once the rewrite yields `newXml`, the copy comes first and the definition of `newXml` second. */
  lemma CloneWithDiskCalls(srcName: string, dstName: string, xml: string, oldDisk: string, defined: bool, fuel: nat, newXml: string)
    requires CloneDescriptor(xml, dstName, oldDisk, fuel) == Some(newXml)
    ensures var calls := CloneCalls(CloneWithDisk(srcName, dstName, xml, oldDisk, defined, fuel));
      |calls| >= 2 && calls[0] == ImageCopy(oldDisk, NewDiskPath(dstName)) && calls[1] == DomainDefine(newXml)
  {
  }

  lemma CloneWithDiskDefines(srcName: string, dstName: string, xml: string, oldDisk: string, defined: bool, fuel: nat, x: string)
    requires DomainDefine(x) in CloneCalls(CloneWithDisk(srcName, dstName, xml, oldDisk, defined, fuel))
    ensures CloneDescriptor(xml, dstName, oldDisk, fuel) == Some(x)
  {
    var calls := CloneCalls(CloneWithDisk(srcName, dstName, xml, oldDisk, defined, fuel));
    assert calls[0] != DomainDefine(x);
    assert calls[1] == DomainDefine(x);
  }

  lemma CloneWithDiskCopies(srcName: string, dstName: string, xml: string, oldDisk: string, defined: bool, fuel: nat, f: string, t: string)
    requires ImageCopy(f, t) in CloneCalls(CloneWithDisk(srcName, dstName, xml, oldDisk, defined, fuel))
    ensures f == oldDisk && t == NewDiskPath(dstName)
  {
    var calls := CloneCalls(CloneWithDisk(srcName, dstName, xml, oldDisk, defined, fuel));
    assert calls[0] == ImageCopy(oldDisk, NewDiskPath(dstName));
  }

  /** Every exit of `clone_vm` frees every handle it took, although not always in reverse order. */
  lemma CloneReleasesAll(uri: string, srcName: string, dstName: string, o: CloneReplies, fuel: nat)
    ensures var r := CloneVm(uri, srcName, dstName, o, fuel);
      r.Finished? ==> AllReleased(r.run.handles)
  {
    var r := CloneVm(uri, srcName, dstName, o, fuel);
    if r.Finished? {
      var h := r.run.handles;
      if NewDomain in h.acquired {
        SwappedReleaseAll(Connection, Domain, XmlText, NewDomain);
      } else {
        ReleasedInReverseAll(h);
      }
    }
  }

  /** Cloning onto an image path that contains the source's disk path never returns. */
  lemma CloneLoopsOnContainedPath(uri: string, srcName: string, dstName: string, xml: string, defined: bool, fuel: nat)
    requires ExtractDiskPath(xml).Some?
    requires Occurs(ExtractDiskPath(xml).value, NewDiskPath(dstName))
    requires Occurs(ExtractDiskPath(xml).value, RemoveUuid(RewriteName(xml, dstName)))
    ensures CloneVm(uri, srcName, dstName, CloneReplies(true, true, Some(xml), defined), fuel).StillLooping?
  {
    CloneDescriptorDiverges(xml, dstName, ExtractDiskPath(xml).value, fuel);
  }

  /** An empty disk path (`<source file=''`) occurs everywhere, so such a clone never returns either. */
  lemma CloneLoopsOnEmptyPath(uri: string, srcName: string, dstName: string, xml: string, defined: bool, fuel: nat)
    requires ExtractDiskPath(xml) == Some("")
    ensures CloneVm(uri, srcName, dstName, CloneReplies(true, true, Some(xml), defined), fuel).StillLooping?
  {
    assert MatchAt(NewDiskPath(dstName), "", 0);
    assert MatchAt(RemoveUuid(RewriteName(xml, dstName)), "", 0);
    CloneDescriptorDiverges(xml, dstName, "", fuel);
  }
}
