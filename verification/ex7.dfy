/**
 * Exercise 7 (Exercices/ex7.c): a stand-alone program that live-migrates one fixed domain
 * to a second host in unsafe mode. `migrate_vm` in libvirt_api.c grew out of it, and the
 * two are proved to make the same libvirt calls and free the same handles in the same order.
 */
module Ex7 {
  import opened Wrappers
  import opened MigrateFlags
  import opened Resources
  import opened LibvirtApi

  const SourceUri := "qemu:///system"
  const DestUri := "qemu+ssh://user@machine2/system"
  const TargetVm := "test_morad1"

  /** What the process leaves behind: its exit status, its output lines, and its libvirt use. */
  datatype Outcome = Outcome(status: int, out: seq<string>, err: seq<string>, handles: Handles, calls: seq<Call>)

  /** `main` of ex7.c, with libvirt's answers as parameters. */
  function Ex7Main(srcOpens: bool, destOpens: bool, domainFound: bool, migrated: bool): (r: Outcome)
    ensures r.status == 1 <==> !(srcOpens && destOpens && domainFound)
    ensures r.status == 0 <==> srcOpens && destOpens && domainFound
    ensures ReleasedInReverse(r.handles)
    ensures NewDomain in r.handles.acquired <==> srcOpens && destOpens && domainFound && migrated
    ensures r.calls == if r.status == 0 then [DomainMigrate(UnsafeLiveMove)] else []
    ensures |r.err| <= 1
    ensures r.status == 0 ==> (r.err == [] <==> migrated)
  {
    var srcOk := "Connexion locale (source) réussie.";
    var destOk := "Connexion à la destination réussie.";
    if !srcOpens then
      Outcome(1, [], ["Erreur : impossible de se connecter à la source (" + SourceUri + ")"], NoHandles, [])
    else if !destOpens then
      Outcome(1, [srcOk], ["Erreur : impossible de se connecter à la destination (" + DestUri + ")"],
              Handles([SourceConnection], [SourceConnection]), [])
    else if !domainFound then
      Outcome(1, [srcOk, destOk], ["Erreur : impossible de trouver la VM " + TargetVm],
              Handles([SourceConnection, DestConnection], [DestConnection, SourceConnection]), [])
    else
      var started := "Migration de la VM '" + TargetVm + "' vers " + DestUri + " (mode UNSAFE)...";
      if migrated then
        Outcome(0, [srcOk, destOk, started, "Migration réussie vers " + DestUri + "."], [],
                Handles([SourceConnection, DestConnection, Domain, NewDomain],
                        [NewDomain, Domain, DestConnection, SourceConnection]),
                [DomainMigrate(UnsafeLiveMove)])
      else
        Outcome(0, [srcOk, destOk, started], ["Échec de la migration."],
                Handles([SourceConnection, DestConnection, Domain], [Domain, DestConnection, SourceConnection]),
                [DomainMigrate(UnsafeLiveMove)])
  }

  /**
   * The program and `migrate_vm` take and free the same handles in the same order and make the
   * same migration call; the program's exit status is 0 exactly when `migrate_vm` gets as far
   * as migrating, whether or not the migration succeeds.
   */
  lemma Ex7AgreesWithMigrateVm(srcOpens: bool, destOpens: bool, domainFound: bool, migrated: bool, lastError: Option<string>)
    ensures var p := Ex7Main(srcOpens, destOpens, domainFound, migrated);
      var m := MigrateVm(MigrateReplies(srcOpens, destOpens, domainFound, migrated, lastError));
      && p.handles == m.handles
      && p.calls == m.calls
      && (p.status == 0 <==> DomainMigrate(UnsafeLiveMove) in m.calls)
  {
  }
}
