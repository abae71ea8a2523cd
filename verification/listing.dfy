/**
 * The two listing entry points of libvirt_api.c, `list_snapshots` and `list_vms`. Both
 * assemble a JSON document in a static buffer with `strcat`, writing a comma before every
 * entry but the first; the loops here do the same and are proved equal to a direct
 * definition of the document.
 */
module Listing {
  import opened Wrappers
  import opened Json
  import opened Resources
  import opened LibvirtApi

  const ListClose := "]}"

  // ---------------------------------------------------------------------------------------
  // list_snapshots
  // ---------------------------------------------------------------------------------------

  const SnapshotsOpen := "{\"snapshots\":["

  /** The document `list_snapshots` reports for the snapshot names it was given. */
  function SnapshotsJson(names: seq<string>): string {
    SnapshotsOpen + CommaJoin(QuoteAll(names)) + ListClose
  }

  /** Reads a snapshot document back into the names it lists. */
  function ReadSnapshots(text: string): Option<seq<string>> {
    if |text| >= |SnapshotsOpen| + |ListClose|
       && text[..|SnapshotsOpen|] == SnapshotsOpen
       && text[|text| - |ListClose|..] == ListClose
    then ReadQuotedList(text[|SnapshotsOpen|..|text| - |ListClose|])
    else None
  }

  /** A snapshot document lists exactly the names it was built from, as long as none holds a quote. */
  lemma SnapshotsJsonRoundTrip(names: seq<string>)
    requires forall i :: 0 <= i < |names| ==> QuoteFree(names[i])
    ensures ReadSnapshots(SnapshotsJson(names)) == Some(names)
  {
    var body := CommaJoin(QuoteAll(names));
    var text := SnapshotsJson(names);
    assert text[..|SnapshotsOpen|] == SnapshotsOpen;
    assert text[|text| - |ListClose|..] == ListClose;
    assert text[|SnapshotsOpen|..|text| - |ListClose|] == body;
    ReadQuotedListOfJoin(names);
  }

  /** A snapshot document is not an error report. */
  lemma SnapshotsJsonIsNoError(names: seq<string>)
    ensures !IsJsonError(SnapshotsJson(names))
  {
    var text := SnapshotsJson(names);
    assert text[2] == 's';
    assert |text| >= 9 ==> text[..9][2] == 's';
  }

  /** `unsigned int num = virDomainSnapshotNum(...)`: the count modulo 2^32, so -1 becomes 4294967295. */
  function UnsignedCount(n: int): (r: nat)
    ensures r < 0x1_0000_0000
    ensures (r - n) % 0x1_0000_0000 == 0
  {
    n % 0x1_0000_0000
  }

  /** The loop of `list_snapshots` (libvirt_api.c:47-54): one quoted name per snapshot, commas between. */
  method BuildSnapshotsText(names: seq<string>) returns (text: string)
    ensures text == SnapshotsJson(names)
  {
    text := SnapshotsOpen;
    var i := 0;
    while i < |names|
      invariant 0 <= i <= |names|
      invariant text == SnapshotsOpen + CommaJoin(QuoteAll(names[..i]))
    {
      var item := Quoted(names[i]);
      assert QuoteAll(names[..i + 1]) == QuoteAll(names[..i]) + [item];
      JoinStep(SnapshotsOpen, QuoteAll(names[..i]), item, text);
      text := if i > 0 then text + "," + item else text + item;
      i := i + 1;
    }
    assert names[..i] == names;
    text := text + ListClose;
  }

  /** What libvirt answers `list_snapshots`: the count, and the names when listing them works. */
  datatype ListReplies = ListReplies(opens: bool, found: bool, count: int, listed: Option<seq<string>>)

  /** The listing succeeded: either there is nothing to list, or the names were read. */
  predicate Listed(o: ListReplies) {
    o.opens && o.found && (UnsignedCount(o.count) == 0 || o.listed.Some?)
  }

  /** The names a successful listing reports. */
  function ListedNames(o: ListReplies): seq<string> {
    if UnsignedCount(o.count) == 0 then [] else o.listed.GetOr([])
  }

  /**
   * `list_snapshots` (libvirt_api.c:14-61). The names array is freed but not the name strings
   * libvirt allocated into it.
   */
  method ListSnapshots(uri: string, name: string, o: ListReplies) returns (r: Run)
    ensures !o.opens ==> r.message == JsonFailure("Impossible de se connecter à " + uri) && r.handles == NoHandles
    ensures o.opens && !o.found ==> r.message == JsonFailure("VM " + name + " introuvable")
    ensures o.opens && o.found && !Listed(o) ==> r.message == JsonFailure("Impossible de lister les snapshots")
    ensures Listed(o) ==> r.message == SnapshotsJson(ListedNames(o))
    ensures IsJsonError(r.message) <==> !Listed(o)
    ensures Leaks(r.handles, NameStrings) <==> Listed(o) && UnsignedCount(o.count) != 0
    ensures !Leaks(r.handles, NameStrings) ==> ReleasedInReverse(r.handles)
    ensures r.calls == []
  {
    if !o.opens {
      return Run(JsonFailure("Impossible de se connecter à " + uri), NoHandles, []);
    }
    if !o.found {
      return Run(JsonFailure("VM " + name + " introuvable"), Handles([Connection], [Connection]), []);
    }
    if UnsignedCount(o.count) == 0 {
      var empty := "{\"snapshots\":[]}";
      assert empty == SnapshotsJson([]);
      SnapshotsJsonIsNoError([]);
      return Run(empty, Handles([Connection, Domain], [Domain, Connection]), []);
    }
    match o.listed
    case None =>
      return Run(JsonFailure("Impossible de lister les snapshots"),
                 Handles([Connection, Domain, NameList], [NameList, Domain, Connection]), []);
    case Some(names) =>
      var text := BuildSnapshotsText(names);
      SnapshotsJsonIsNoError(names);
      return Run(text, Handles([Connection, Domain, NameList, NameStrings], [NameList, Domain, Connection]), []);
  }

  /**
   * A failed count (-1) is not taken for "no snapshots": it wraps to a huge count, and the
   * listing call decides what is reported.
   */
  lemma FailedCountIsNotEmpty(o: ListReplies)
    requires o.count == -1
    ensures UnsignedCount(o.count) == 0xFFFF_FFFF
    ensures Listed(o) <==> o.opens && o.found && o.listed.Some?
  {
  }

  // ---------------------------------------------------------------------------------------
  // list_vms
  // ---------------------------------------------------------------------------------------

  const VmsOpen := "{\"vms\":["

  /** What `virDomainGetName` and `virDomainGetInfo` give for one running domain. */
  datatype ActiveDomain = ActiveDomain(name: string, state: int)

  /** One object of the `vms` array. */
  datatype VmEntry = VmEntry(name: string, state: string)

  /** The `switch` on `info.state` in `list_vms`. */
  function StateLabel(state: int): (tag: string)
    ensures tag in {"running", "paused", "shutoff", "unknown"}
    ensures state == StateRunning ==> tag == "running"
    ensures state == StatePaused ==> tag == "paused"
    ensures state == StateShutoff ==> tag == "shutoff"
    ensures tag == "unknown" <==> state !in {StateRunning, StatePaused, StateShutoff}
  {
    if state == StateRunning then "running"
    else if state == StatePaused then "paused"
    else if state == StateShutoff then "shutoff"
    else "unknown"
  }

  /** The state a label names, for the three labels that name one. */
  function LabelState(tag: string): Option<int> {
    if tag == "running" then Some(StateRunning)
    else if tag == "paused" then Some(StatePaused)
    else if tag == "shutoff" then Some(StateShutoff)
    else None
  }

  /** The label gives the state back exactly when the state is one the switch names. */
  lemma StateLabelInverse(state: int)
    ensures LabelState(StateLabel(state)) == Some(state) <==> state in {StateRunning, StatePaused, StateShutoff}
    ensures LabelState(StateLabel(state)).None? <==> StateLabel(state) == "unknown"
    ensures LabelState(StateLabel(state)).None? <==> state !in {StateRunning, StatePaused, StateShutoff}
  {
  }

  /** `{"name":"%s","state":"%s"}`. */
  function EntryJson(e: VmEntry): string {
    "{\"name\":" + Quoted(e.name) + ",\"state\":" + Quoted(e.state) + "}"
  }

  function EntriesJson(es: seq<VmEntry>): (r: seq<string>)
    ensures |r| == |es| && forall i :: 0 <= i < |es| ==> r[i] == EntryJson(es[i])
  {
    seq(|es|, i requires 0 <= i < |es| => EntryJson(es[i]))
  }

  /** The document `list_vms` reports for a list of entries. */
  function VmsJson(es: seq<VmEntry>): string {
    VmsOpen + CommaJoin(EntriesJson(es)) + ListClose
  }

  /** The entry of a running domain. */
  function ActiveEntry(d: ActiveDomain): VmEntry {
    VmEntry(d.name, StateLabel(d.state))
  }

  /** The running domains in id order, those whose lookup by id failed left out. */
  function ActiveEntries(active: seq<Option<ActiveDomain>>): seq<VmEntry> {
    if |active| == 0 then []
    else
      var last := active[|active| - 1];
      ActiveEntries(active[..|active| - 1]) + (if last.Some? then [ActiveEntry(last.value)] else [])
  }

  /** Every defined (inactive) domain, reported as shut off. */
  function DefinedEntries(defined: seq<string>): (r: seq<VmEntry>)
    ensures |r| == |defined| && forall i :: 0 <= i < |defined| ==> r[i] == VmEntry(defined[i], "shutoff")
  {
    seq(|defined|, i requires 0 <= i < |defined| => VmEntry(defined[i], "shutoff"))
  }

  lemma SnocAssoc(a: seq<VmEntry>, b: seq<VmEntry>, e: VmEntry)
    ensures (a + b) + [e] == a + (b + [e])
  {
  }

  /** Extending the running domains by one extends their entries by at most one. */
  lemma ActiveEntriesSnoc(active: seq<Option<ActiveDomain>>, i: nat)
    requires i < |active|
    ensures ActiveEntries(active[..i + 1]) ==
      ActiveEntries(active[..i]) + (if active[i].Some? then [ActiveEntry(active[i].value)] else [])
  {
    assert active[..i + 1][..i] == active[..i];
  }

  /** An entry is listed for a running domain exactly when its lookup succeeded. */
  lemma {:induction false} ActiveEntriesMembers(active: seq<Option<ActiveDomain>>, e: VmEntry)
    ensures e in ActiveEntries(active) <==>
      exists i :: 0 <= i < |active| && active[i].Some? && ActiveEntry(active[i].value) == e
    decreases |active|
  {
    if |active| > 0 {
      var init := active[..|active| - 1];
      ActiveEntriesMembers(init, e);
      if e in ActiveEntries(active) && e !in ActiveEntries(init) {
        assert active[|active| - 1].Some? && ActiveEntry(active[|active| - 1].value) == e;
      }
      if exists i :: 0 <= i < |active| && active[i].Some? && ActiveEntry(active[i].value) == e {
        var i :| 0 <= i < |active| && active[i].Some? && ActiveEntry(active[i].value) == e;
        if i < |active| - 1 {
          assert init[i] == active[i];
        }
      }
    }
  }

  lemma EntriesJsonSnoc(es: seq<VmEntry>, e: VmEntry)
    ensures EntriesJson(es + [e]) == EntriesJson(es) + [EntryJson(e)]
  {
  }

  /** One step of either loop of `list_vms`: a comma unless `first`, then the entry's object. */
  method AppendEntry(text: string, first: bool, ghost listed: seq<VmEntry>, e: VmEntry)
    returns (text': string, first': bool)
    requires first <==> |listed| == 0
    requires text == VmsOpen + CommaJoin(EntriesJson(listed))
    ensures text' == VmsOpen + CommaJoin(EntriesJson(listed + [e])) && !first'
  {
    var item := EntryJson(e);
    EntriesJsonSnoc(listed, e);
    JoinStep(VmsOpen, EntriesJson(listed), item, text);
    text' := if first then text + item else text + "," + item;
    first' := false;
  }

  /**
   * `list_vms` (libvirt_api.c:173-242): the running domains then the defined ones, with the
   * `first` flag deciding where commas go.
   */
  method ListVms(uri: string, opens: bool, active: seq<Option<ActiveDomain>>, defined: seq<string>)
    returns (text: string)
    ensures !opens ==> text == JsonFailure("Failed to connect to " + uri)
    ensures opens ==> text == VmsJson(ActiveEntries(active) + DefinedEntries(defined))
  {
    if !opens {
      return JsonFailure("Failed to connect to " + uri);
    }
    var first;
    text, first := AppendActive(VmsOpen, true, [], active);
    assert [] + ActiveEntries(active) == ActiveEntries(active);
    text, first := AppendDefined(text, first, ActiveEntries(active), defined);
    text := text + ListClose;
  }

  /** The first loop of `list_vms` (libvirt_api.c:192-216): one entry per domain found by id. */
  method AppendActive(text: string, first: bool, ghost listed: seq<VmEntry>, active: seq<Option<ActiveDomain>>)
    returns (text': string, first': bool)
    requires first <==> |listed| == 0
    requires text == VmsOpen + CommaJoin(EntriesJson(listed))
    ensures first' <==> |listed + ActiveEntries(active)| == 0
    ensures text' == VmsOpen + CommaJoin(EntriesJson(listed + ActiveEntries(active)))
  {
    text', first' := text, first;
    ghost var listed' := listed;
    var i := 0;
    while i < |active|
      invariant 0 <= i <= |active|
      invariant listed' == listed + ActiveEntries(active[..i])
      invariant first' <==> |listed'| == 0
      invariant text' == VmsOpen + CommaJoin(EntriesJson(listed'))
    {
      ActiveEntriesSnoc(active, i);
      match active[i] {
        case None =>
        case Some(d) =>
          var e := ActiveEntry(d);
          text', first' := AppendEntry(text', first', listed', e);
          SnocAssoc(listed, ActiveEntries(active[..i]), e);
          listed' := listed' + [e];
      }
      i := i + 1;
    }
    assert active[..i] == active;
  }

  /** The second loop of `list_vms` (libvirt_api.c:225-235): every defined domain, as shut off. */
  method AppendDefined(text: string, first: bool, ghost listed: seq<VmEntry>, defined: seq<string>)
    returns (text': string, first': bool)
    requires first <==> |listed| == 0
    requires text == VmsOpen + CommaJoin(EntriesJson(listed))
    ensures first' <==> |listed + DefinedEntries(defined)| == 0
    ensures text' == VmsOpen + CommaJoin(EntriesJson(listed + DefinedEntries(defined)))
  {
    text', first' := text, first;
    ghost var listed' := listed;
    var j := 0;
    while j < |defined|
      invariant 0 <= j <= |defined|
      invariant listed' == listed + DefinedEntries(defined[..j])
      invariant first' <==> |listed'| == 0
      invariant text' == VmsOpen + CommaJoin(EntriesJson(listed'))
    {
      var e := VmEntry(defined[j], "shutoff");
      assert DefinedEntries(defined[..j + 1]) == DefinedEntries(defined[..j]) + [e];
      text', first' := AppendEntry(text', first', listed', e);
      SnocAssoc(listed, DefinedEntries(defined[..j]), e);
      listed' := listed' + [e];
      j := j + 1;
    }
    assert defined[..j] == defined;
  }

  /** Every defined domain appears in the listing, as shut off, after all the running ones. */
  lemma DefinedListedAsShutoff(active: seq<Option<ActiveDomain>>, defined: seq<string>, k: nat)
    requires k < |defined|
    ensures var es := ActiveEntries(active) + DefinedEntries(defined);
      |ActiveEntries(active)| + k < |es| && es[|ActiveEntries(active)| + k] == VmEntry(defined[k], "shutoff")
  {
  }
}
