/**
 * `LibvirtPythonBackend` (mini-projet/orchestrator.py): a cache of libvirt connections keyed
 * by URI, and host and domain operations that all go through that cache. libvirt's answers
 * are parameters; a Python exception is an `Outcome` that carries it.
 */
module Orchestrator {
  import opened Wrappers
  import opened MigrateFlags

  /** An open `virConnect`, told apart by an identity libvirt gives it. */
  datatype Conn = Conn(id: nat)

  /** `self._conns`. */
  type Cache = map<string, Conn>

  /** The two kinds of exception the backend lets escape. */
  datatype Exception = RuntimeError(message: string) | LibvirtError(message: string)

  /** A Python call either returns a value or raises. */
  datatype Outcome<T> = Ok(value: T) | Raised(exception: Exception)

  /** What `libvirt.open(uri)` does. */
  datatype OpenReply = Opened(conn: Conn) | ReturnedNone | OpenRaised(error: string)

  /** What a libvirt method returning a status code does. */
  datatype CallReply = Returned(code: int) | CallRaised(error: string)

  const ModuleMissing := "Le module python-libvirt n'est pas disponible."

  function CannotOpen(uri: string): string {
    "Impossible d'ouvrir la connexion: " + uri
  }

  function NotConnected(uri: string): string {
    "Non connecté à " + uri
  }

  // ---------------------------------------------------------------------------------------
  // The connection cache
  // ---------------------------------------------------------------------------------------

  /** The cache after a call, what the call raised, and whether it called `libvirt.open`. */
  datatype Connecting = Connecting(conns: Cache, raised: Option<Exception>, openCalled: bool)

  /**
   * `connect` (orchestrator.py:41-49). `loaded` says whether `import libvirt` succeeded; `reply`
   * is what `libvirt.open` does if it is called.
   */
  function Connect(conns: Cache, uri: string, loaded: bool, reply: OpenReply): (r: Connecting)
    ensures uri in conns ==> r.conns == conns && r.raised.None? && !r.openCalled
    ensures r.openCalled <==> uri !in conns && loaded
    ensures r.raised.Some? ==> r.conns == conns
    ensures r.raised.None? <==> uri in conns || (loaded && reply.Opened?)
    ensures r.raised.None? ==> uri in r.conns && r.conns == conns[uri := r.conns[uri]]
    ensures uri !in conns && r.raised.None? ==> r.conns[uri] == reply.conn
    ensures uri !in conns && !loaded ==> r.raised == Some(RuntimeError(ModuleMissing))
    ensures uri !in conns && loaded && reply.ReturnedNone? ==> r.raised == Some(RuntimeError(CannotOpen(uri)))
    ensures uri !in conns && loaded && reply.OpenRaised? ==> r.raised == Some(LibvirtError(reply.error))
  {
    if uri in conns then Connecting(conns, None, false)
    else if !loaded then Connecting(conns, Some(RuntimeError(ModuleMissing)), false)
    else match reply
      case Opened(c) => Connecting(conns[uri := c], None, true)
      case ReturnedNone => Connecting(conns, Some(RuntimeError(CannotOpen(uri))), true)
      case OpenRaised(e) => Connecting(conns, Some(LibvirtError(e)), true)
  }

  /** Connecting twice is connecting once: the second call opens nothing and changes nothing. */
  lemma ConnectIdempotent(conns: Cache, uri: string, loaded: bool, first: OpenReply, second: OpenReply)
    ensures var once := Connect(conns, uri, loaded, first);
      var twice := Connect(once.conns, uri, loaded, second);
      once.raised.None? ==> twice == Connecting(once.conns, None, false)
  {
  }

  /** Without the libvirt module the cache never gains an entry. */
  lemma NoModuleNoConnections(conns: Cache, uri: string, reply: OpenReply)
    ensures Connect(conns, uri, false, reply).conns == conns
    ensures !Connect(conns, uri, false, reply).openCalled
  {
  }

  /** The cache after a call, the connection on which it called `close()`, if any, and what escaped. */
  datatype Closing = Closing(conns: Cache, closed: Option<Conn>, raised: Option<Exception>)

  /**
   * `close` (orchestrator.py:51-55): a cached connection is closed and then forgotten; otherwise
   * nothing happens. `reply` is what `conn.close()` raises, if it raises: the exception escapes
   * before the entry is deleted, so the URI stays cached.
   */
  function Close(conns: Cache, uri: string, reply: Option<string>): (r: Closing)
    ensures r.closed.Some? <==> uri in conns
    ensures uri in conns ==> r.closed == Some(conns[uri])
    ensures r.raised.Some? <==> uri in conns && reply.Some?
    ensures r.raised.Some? ==> r.raised == Some(LibvirtError(reply.value)) && r.conns == conns
    ensures r.raised.None? ==> uri !in r.conns
    ensures forall u :: u != uri ==> (u in r.conns <==> u in conns)
    ensures forall u :: u != uri && u in conns ==> r.conns[u] == conns[u]
  {
    if uri !in conns then Closing(conns, None, None)
    else match reply
      case Some(e) => Closing(conns, Some(conns[uri]), Some(LibvirtError(e)))
      case None => Closing(conns - {uri}, Some(conns[uri]), None)
  }

  /** Closing a URI that was just connected restores the cache as it was without that URI. */
  lemma CloseUndoesConnect(conns: Cache, uri: string, c: Conn)
    requires uri !in conns
    ensures var after := Connect(conns, uri, true, Opened(c));
      Close(after.conns, uri, None) == Closing(conns, Some(c), None)
  {
    assert (conns[uri := c]) - {uri} == conns;
  }

  /** `_conn` (orchestrator.py:57-61): the cached connection, or a RuntimeError. */
  function ConnOf(conns: Cache, uri: string): (r: Outcome<Conn>)
    ensures r.Ok? <==> uri in conns
    ensures r.Ok? ==> r.value == conns[uri]
    ensures r.Raised? ==> r.exception == RuntimeError(NotConnected(uri))
  {
    if uri in conns then Ok(conns[uri]) else Raised(RuntimeError(NotConnected(uri)))
  }

  // ---------------------------------------------------------------------------------------
  // Host information and listing
  // ---------------------------------------------------------------------------------------

  datatype HostInfo = HostInfo(hostname: string, encrypted: int, maxVcpus: int, freeMemKb: int)

  /** `free_mem // 1024`: Python's floor division. */
  function FloorDiv1024(n: int): (q: int)
    ensures q * 1024 <= n < (q + 1) * 1024
  {
    n / 1024
  }

  /**
   * `host_info` (orchestrator.py:63-74): `getHostname`, `getMaxVcpus`, `getFreeMemory` and
   * `isEncrypted` are called in that order, and the first that raises ends the call with its
   * exception. The free memory is reported in whole KiB, rounded down.
   */
  function GetHostInfo(conns: Cache, uri: string, hostname: Outcome<string>, maxVcpus: Outcome<int>,
                       freeMem: Outcome<int>, encrypted: Outcome<int>): (r: Outcome<HostInfo>)
    ensures r.Ok? <==> uri in conns && hostname.Ok? && maxVcpus.Ok? && freeMem.Ok? && encrypted.Ok?
    ensures uri !in conns ==> r == Raised(RuntimeError(NotConnected(uri)))
    ensures uri in conns && hostname.Raised? ==> r == Raised(hostname.exception)
    ensures uri in conns && hostname.Ok? && maxVcpus.Raised? ==> r == Raised(maxVcpus.exception)
    ensures uri in conns && hostname.Ok? && maxVcpus.Ok? && freeMem.Raised? ==> r == Raised(freeMem.exception)
    ensures uri in conns && hostname.Ok? && maxVcpus.Ok? && freeMem.Ok? && encrypted.Raised? ==>
      r == Raised(encrypted.exception)
    ensures r.Ok? ==>
      && r.value.hostname == hostname.value && r.value.encrypted == encrypted.value
      && r.value.maxVcpus == maxVcpus.value
      && r.value.freeMemKb * 1024 <= freeMem.value < r.value.freeMemKb * 1024 + 1024
  {
    match ConnOf(conns, uri)
    case Raised(e) => Raised(e)
    case Ok(_) =>
      match hostname
      case Raised(e) => Raised(e)
      case Ok(host) =>
        match maxVcpus
        case Raised(e) => Raised(e)
        case Ok(vcpus) =>
          match freeMem
          case Raised(e) => Raised(e)
          case Ok(mem) =>
            match encrypted
            case Raised(e) => Raised(e)
            case Ok(enc) => Ok(HostInfo(host, enc, vcpus, FloorDiv1024(mem)))
  }

  /** `dom.info()`: state, maximum memory, memory, virtual CPUs, CPU time. */
  datatype DomainInfo = DomainInfo(name: string, state: int, maxMem: int, memory: int, nrVirtCpu: int, cpuTime: int)

  /** One id from `listDomainsID()` and what `lookupByID`, `info()` and `name()` then do with it. */
  datatype ActiveReply = ActiveReply(id: int, lookup: Outcome<DomainInfo>)

  /** One record of the active list. */
  datatype ActiveRecord = ActiveRecord(id: int, name: string, state: int, maxMem: int, memory: int, nrVirtCpu: int, cpuTime: int)

  function RecordOf(id: int, d: DomainInfo): ActiveRecord {
    ActiveRecord(id, d.name, d.state, d.maxMem, d.memory, d.nrVirtCpu, d.cpuTime)
  }

  /** The index of the first id whose lookup raised, if any. */
  function FirstFailure(active: seq<ActiveReply>): (k: Option<nat>)
    ensures k.Some? ==> k.value < |active| && active[k.value].lookup.Raised?
    ensures k.Some? ==> forall i :: 0 <= i < k.value ==> active[i].lookup.Ok?
    ensures k.None? ==> forall i :: 0 <= i < |active| ==> active[i].lookup.Ok?
  {
    if |active| == 0 then None
    else if active[0].lookup.Raised? then Some(0)
    else match FirstFailure(active[1..])
      case None => None
      case Some(k) => Some(k + 1)
  }

  /** The records of `active`, all of whose lookups succeeded. */
  function Records(active: seq<ActiveReply>): (r: seq<ActiveRecord>)
    requires forall i :: 0 <= i < |active| ==> active[i].lookup.Ok?
    ensures |r| == |active|
    ensures forall i :: 0 <= i < |active| ==> r[i] == RecordOf(active[i].id, active[i].lookup.value)
  {
    seq(|active|, i requires 0 <= i < |active| => RecordOf(active[i].id, active[i].lookup.value))
  }

  /**
   * `list_domains` (orchestrator.py:76-94): one record per active id, in order, then the
   * defined names untouched. `listDomainsID`, each id's lookup and `listDefinedDomains` are
   * called in that order, and the first that raises ends the call with its exception.
   */
  function ListDomains(conns: Cache, uri: string, active: Outcome<seq<ActiveReply>>, defined: Outcome<seq<string>>)
    : (r: Outcome<(seq<ActiveRecord>, seq<string>)>)
    ensures r.Ok? <==>
      && uri in conns && active.Ok? && defined.Ok?
      && forall i :: 0 <= i < |active.value| ==> active.value[i].lookup.Ok?
    ensures uri !in conns ==> r == Raised(RuntimeError(NotConnected(uri)))
    ensures uri in conns && active.Raised? ==> r == Raised(active.exception)
    ensures uri in conns && active.Ok? && FirstFailure(active.value).Some? ==>
      r == Raised(active.value[FirstFailure(active.value).value].lookup.exception)
    ensures uri in conns && active.Ok? && FirstFailure(active.value).None? && defined.Raised? ==>
      r == Raised(defined.exception)
    ensures r.Ok? ==> |r.value.0| == |active.value| && r.value.1 == defined.value
    ensures r.Ok? ==> forall i :: 0 <= i < |active.value| ==>
      r.value.0[i].id == active.value[i].id && r.value.0[i].name == active.value[i].lookup.value.name
      && r.value.0[i].state == active.value[i].lookup.value.state
      && r.value.0[i].maxMem == active.value[i].lookup.value.maxMem
      && r.value.0[i].memory == active.value[i].lookup.value.memory
      && r.value.0[i].nrVirtCpu == active.value[i].lookup.value.nrVirtCpu
      && r.value.0[i].cpuTime == active.value[i].lookup.value.cpuTime
  {
    match ConnOf(conns, uri)
    case Raised(e) => Raised(e)
    case Ok(_) =>
      match active
      case Raised(e) => Raised(e)
      case Ok(ids) =>
        match FirstFailure(ids)
        case Some(k) => Raised(ids[k].lookup.exception)
        case None =>
          match defined
          case Raised(e) => Raised(e)
          case Ok(names) => Ok((Records(ids), names))
  }

  // ---------------------------------------------------------------------------------------
  // Domain operations
  // ---------------------------------------------------------------------------------------

  /** The five single-call domain operations. */
  datatype DomainOp = Start | StopForce | Suspend | Resume | Undefine

  /** The message each operation raises when libvirt's call returns non-zero. */
  function OpFailure(op: DomainOp, name: string): string {
    match op
    case Start => "Échec du démarrage de " + name
    case StopForce => "Échec de l'arrêt de " + name
    case Suspend => "Échec de la suspension de " + name
    case Resume => "Échec de la reprise de " + name
    case Undefine => "Échec de la suppression (undefine) de " + name
  }

  /**
   * `start_domain`, `stop_domain_force`, `suspend_domain`, `resume_domain`, `undefine_domain`
   * (orchestrator.py:96-126): look the domain up, make the call, raise when it returns non-zero.
   * `lookup` is what `lookupByName` does; `reply` what the operation's call does.
   */
  function DomainCall(conns: Cache, uri: string, name: string, op: DomainOp, lookup: Option<string>, reply: CallReply)
    : (r: Outcome<()>)
    ensures r.Ok? <==> uri in conns && lookup.None? && reply == Returned(0)
    ensures uri !in conns ==> r == Raised(RuntimeError(NotConnected(uri)))
    ensures uri in conns && lookup.Some? ==> r == Raised(LibvirtError(lookup.value))
    ensures uri in conns && lookup.None? && reply.Returned? && reply.code != 0 ==>
      r == Raised(RuntimeError(OpFailure(op, name)))
    ensures uri in conns && lookup.None? && reply.CallRaised? ==> r == Raised(LibvirtError(reply.error))
  {
    match ConnOf(conns, uri)
    case Raised(e) => Raised(e)
    case Ok(_) =>
      if lookup.Some? then Raised(LibvirtError(lookup.value))
      else match reply
        case CallRaised(e) => Raised(LibvirtError(e))
        case Returned(code) => if code != 0 then Raised(RuntimeError(OpFailure(op, name))) else Ok(())
  }

  // ---------------------------------------------------------------------------------------
  // migrate_domain
  // ---------------------------------------------------------------------------------------

  /** The flags `migrate_domain` builds from its four booleans (orchestrator.py:131-139). */
  function RequestedFlags(live: bool, tunnelled: bool, persist: bool, undefineSource: bool): (fs: set<Flag>)
    ensures Live in fs <==> live
    ensures Tunnelled in fs <==> tunnelled
    ensures PersistDest in fs <==> persist
    ensures UndefineSource in fs <==> undefineSource
    ensures fs <= {Live, Tunnelled, PersistDest, UndefineSource}
  {
    (if live then {Live} else {})
    + (if persist then {PersistDest} else {})
    + (if tunnelled then {Tunnelled} else {})
    + (if undefineSource then {UndefineSource} else {})
  }

  /** The default arguments ask for a live, tunnelled, persistent migration: 1 + 4 + 8. */
  lemma DefaultFlags()
    ensures RequestedFlags(true, true, true, false) == {Live, Tunnelled, PersistDest}
    ensures Encode(RequestedFlags(true, true, true, false)) == 13
  {
  }

  /** The integer the booleans produce carries exactly the requested flags. */
  lemma RequestedFlagsDecode(live: bool, tunnelled: bool, persist: bool, undefineSource: bool)
    ensures var n := Encode(RequestedFlags(live, tunnelled, persist, undefineSource));
      && (HasBit(n, Live) <==> live) && (HasBit(n, Tunnelled) <==> tunnelled)
      && (HasBit(n, PersistDest) <==> persist) && (HasBit(n, UndefineSource) <==> undefineSource)
      && !HasBit(n, Unsafe) && !HasBit(n, PeerToPeer)
  {
    var fs := RequestedFlags(live, tunnelled, persist, undefineSource);
    HasBitEncode(fs, Live);
    HasBitEncode(fs, Tunnelled);
    HasBitEncode(fs, PersistDest);
    HasBitEncode(fs, UndefineSource);
    HasBitEncode(fs, Unsafe);
    HasBitEncode(fs, PeerToPeer);
  }

  /** The libvirt migration calls `migrate_domain` makes. */
  datatype MigrateCall = MigrateToUri3(dest: string, flags: set<Flag>) | MigrateToUri(dest: string, flags: set<Flag>)

  /** What a migration attempt raised, and the calls it made. */
  datatype Migration = Migration(result: Outcome<()>, calls: seq<MigrateCall>)

  function MigrationFailure(name: string, dest: string): string {
    "Échec de la migration de " + name + " vers " + dest
  }

  /**
   * `migrate_domain` (orchestrator.py:128-147). `newer` is what `migrateToURI3` does: nothing
   * (`None`) or raise. Any exception from it, whatever its kind, sends the call to
   * `migrateToURI`, whose reply is `fallback`.
   */
  function MigrateDomain(conns: Cache, uri: string, name: string, dest: string,
                         live: bool, tunnelled: bool, persist: bool, undefineSource: bool,
                         lookup: Option<string>, newer: Option<string>, fallback: CallReply): (r: Migration)
    ensures uri !in conns ==> r == Migration(Raised(RuntimeError(NotConnected(uri))), [])
    ensures uri in conns && lookup.Some? ==> r == Migration(Raised(LibvirtError(lookup.value)), [])
    ensures uri in conns && lookup.None? ==>
      |r.calls| >= 1 && r.calls[0] == MigrateToUri3(dest, RequestedFlags(live, tunnelled, persist, undefineSource))
    ensures MigrateToUri(dest, RequestedFlags(live, tunnelled, persist, undefineSource)) in r.calls <==>
      uri in conns && lookup.None? && newer.Some?
    ensures forall c :: c in r.calls ==> c.dest == dest && c.flags == RequestedFlags(live, tunnelled, persist, undefineSource)
    ensures uri in conns && lookup.None? ==>
      (r.result.Ok? <==> newer.None? || fallback == Returned(0))
    ensures uri in conns && lookup.None? && newer.Some? ==>
      (r.result == Raised(RuntimeError(MigrationFailure(name, dest))) <==> fallback.Returned? && fallback.code != 0)
    ensures uri in conns && lookup.None? && newer.Some? && fallback.CallRaised? ==>
      r.result == Raised(LibvirtError(fallback.error))
  {
    match ConnOf(conns, uri)
    case Raised(e) => Migration(Raised(e), [])
    case Ok(_) =>
      if lookup.Some? then Migration(Raised(LibvirtError(lookup.value)), [])
      else
        var flags := RequestedFlags(live, tunnelled, persist, undefineSource);
        var first := MigrateToUri3(dest, flags);
        if newer.None? then Migration(Ok(()), [first])
        else
          var second := MigrateToUri(dest, flags);
          match fallback
          case CallRaised(e) => Migration(Raised(LibvirtError(e)), [first, second])
          case Returned(code) =>
            if code != 0 then Migration(Raised(RuntimeError(MigrationFailure(name, dest))), [first, second])
            else Migration(Ok(()), [first, second])
  }

  /** Every host and domain operation raises "Non connecté" for a URI the cache does not hold. */
  lemma NotConnectedFails(conns: Cache, uri: string, name: string, dest: string, op: DomainOp,
                          lookup: Option<string>, reply: CallReply, newer: Option<string>,
                          active: Outcome<seq<ActiveReply>>, defined: Outcome<seq<string>>,
                          hostname: Outcome<string>, freeMem: Outcome<int>)
    requires uri !in conns
    ensures var e := RuntimeError(NotConnected(uri));
      && GetHostInfo(conns, uri, hostname, Ok(0), freeMem, Ok(0)) == Raised(e)
      && ListDomains(conns, uri, active, defined) == Raised(e)
      && DomainCall(conns, uri, name, op, lookup, reply) == Raised(e)
      && MigrateDomain(conns, uri, name, dest, true, true, true, false, lookup, newer, reply).result == Raised(e)
  {
  }
}
