/** `apply_restore`: replacing a database file by a staged image, with roll-back, when any file
    operation may fail. A failed operation changes nothing. */
module Restore {
  import opened Outcomes

  type Content = string

  datatype Path = Database | Wal | Shm | Stage | RollbackDatabase | RollbackWal | RollbackShm | Prebackup

  /** The files of the directory that a restore touches. */
  datatype Files = Files(
    database: Option<Content>, wal: Option<Content>, shm: Option<Content>, stage: Option<Content>,
    rollbackDatabase: Option<Content>, rollbackWal: Option<Content>, rollbackShm: Option<Content>,
    prebackup: Option<Content>)

  function Get(files: Files, p: Path): Option<Content> {
    match p
    case Database => files.database
    case Wal => files.wal
    case Shm => files.shm
    case Stage => files.stage
    case RollbackDatabase => files.rollbackDatabase
    case RollbackWal => files.rollbackWal
    case RollbackShm => files.rollbackShm
    case Prebackup => files.prebackup
  }

  function Put(files: Files, p: Path, content: Option<Content>): Files {
    match p
    case Database => files.(database := content)
    case Wal => files.(wal := content)
    case Shm => files.(shm := content)
    case Stage => files.(stage := content)
    case RollbackDatabase => files.(rollbackDatabase := content)
    case RollbackWal => files.(rollbackWal := content)
    case RollbackShm => files.(rollbackShm := content)
    case Prebackup => files.(prebackup := content)
  }

  predicate Has(files: Files, p: Path) { Get(files, p).Some? }

  /** Which operations succeed, in the order they are tried. `madeWal` and `madeShm` are the
      sidecars that opening the new database for verification leaves behind. */
  datatype PutBackPlan = PutBackPlan(
    removeDatabase: bool, moveDatabase: bool, removeWal: bool, moveWal: bool, removeShm: bool, moveShm: bool)

  datatype Plan = Plan(
    prebackup: bool, staging: bool,
    asideDatabase: bool, asideWal: bool, asideShm: bool, moveStage: bool,
    madeWal: Option<Content>, madeShm: Option<Content>, verified: bool, putBack: PutBackPlan, syncBack: bool,
    dropDatabase: bool, dropWal: bool, dropShm: bool, syncDone: bool, dropStage: bool)

  /** `SaysRestored` is the error that claims the original state is back. */
  datatype Outcome = Done(staleWal: bool, staleShm: bool) | Refused | SaysRestored | PutBackFailed | CleanupFailed

  function Rename(files: Files, from: Path, to: Path, ok: bool): (Files, bool) {
    if ok && Has(files, from) then (Put(Put(files, from, None), to, Get(files, from)), true) else (files, false)
  }

  function RemoveIfExists(files: Files, p: Path, ok: bool): (Files, bool) {
    if ok then (Put(files, p, None), true) else (files, false)
  }

  /** Renames `from` to `to` if it is there. */
  function Aside(files: Files, from: Path, to: Path, ok: bool): (Files, bool) {
    if Has(files, from) then Rename(files, from, to, ok) else (files, true)
  }

  /** The originals aside, then the staged image in place. */
  function MoveIn(files: Files, plan: Plan): (Files, bool) {
    var (f1, ok1) := Aside(files, Database, RollbackDatabase, plan.asideDatabase);
    if !ok1 then (f1, false)
    else
      var (f2, ok2) := Aside(f1, Wal, RollbackWal, plan.asideWal);
      if !ok2 then (f2, false)
      else
        var (f3, ok3) := Aside(f2, Shm, RollbackShm, plan.asideShm);
        if !ok3 then (f3, false) else Rename(f3, Stage, Database, plan.moveStage)
  }

  /** A sidecar back over whatever is in its place. */
  function SidecarBack(files: Files, rollback: Path, target: Path, remove: bool, move: bool): (Files, bool) {
    if !Has(files, rollback) then (files, true)
    else
      var (f1, ok1) := RemoveIfExists(files, target, remove);
      if !ok1 then (f1, false) else Rename(f1, rollback, target, move)
  }

  /** `restore_original_files` */
  function PutBack(files: Files, p: PutBackPlan): (Files, bool) {
    var (f1, ok1) := RemoveIfExists(files, Database, p.removeDatabase);
    if !ok1 then (f1, false)
    else
      var (f2, ok2) := Aside(f1, RollbackDatabase, Database, p.moveDatabase);
      if !ok2 then (f2, false)
      else
        var (f3, ok3) := SidecarBack(f2, RollbackWal, Wal, p.removeWal, p.moveWal);
        if !ok3 then (f3, false) else SidecarBack(f3, RollbackShm, Shm, p.removeShm, p.moveShm)
  }

  function Undo(files: Files, plan: Plan): (Files, Outcome) {
    var (back, ok) := PutBack(files, plan.putBack);
    (back, if ok && plan.syncBack then SaysRestored else PutBackFailed)
  }

  function CleanUp(files: Files, plan: Plan): (Files, Outcome) {
    var (f1, _) := RemoveIfExists(files, RollbackDatabase, plan.dropDatabase);
    var (f2, ok2) := RemoveIfExists(f1, RollbackWal, plan.dropWal);
    if !ok2 then (f2, CleanupFailed)
    else
      var (f3, ok3) := RemoveIfExists(f2, RollbackShm, plan.dropShm);
      if !ok3 || !plan.syncDone then (f3, CleanupFailed)
      else (f3, Done(Has(f1, RollbackWal), Has(f2, RollbackShm)))
  }

  /** With a copy of the database, if there is one. */
  function WithPrebackup(files: Files): Files {
    if files.database.Some? then files.(prebackup := files.database) else files
  }

  /** After verification has opened the new database. */
  function Opened(files: Files, plan: Plan): Files {
    files.(wal := if plan.madeWal.Some? then plan.madeWal else files.wal,
           shm := if plan.madeShm.Some? then plan.madeShm else files.shm)
  }

  /** The directory before the move: a backup of the target, and the staged image. */
  function Staged(files: Files, image: Content): Files {
    WithPrebackup(files).(stage := Some(image))
  }

  function Replace(files: Files, plan: Plan): (Files, Outcome) {
    var (moved, inPlace) := MoveIn(files, plan);
    if !inPlace then Undo(moved, plan)
    else if !plan.verified then Undo(Opened(moved, plan), plan)
    else CleanUp(Opened(moved, plan), plan)
  }

  /** Without the staged image, unless it could not be removed. */
  function Unstage(files: Files, plan: Plan): Files {
    if plan.dropStage then files.(stage := None) else files
  }

  function ApplyRestore(files: Files, image: Content, plan: Plan): (Files, Outcome) {
    if files.database.Some? && !plan.prebackup then (Unstage(files, plan), Refused)
    else if !plan.staging then
      (Unstage(WithPrebackup(files), plan), Refused)
    else
      var (after, outcome) := Replace(Staged(files, image), plan);
      (Unstage(after, plan), outcome)
  }

  class Directory {
    var files: Files

    constructor (contents: Files)
      ensures files == contents
    {
      files := contents;
    }

    /** A rename of the file system. */
    method Move(from: Path, to: Path, possible: bool) returns (ok: bool)
      modifies this
      ensures (files, ok) == Rename(old(files), from, to, possible)
    {
      if !possible || !Has(files, from) { return false; }
      files := Put(Put(files, from, None), to, Get(files, from));
      ok := true;
    }

    method Drop(p: Path, possible: bool) returns (ok: bool)
      modifies this
      ensures (files, ok) == RemoveIfExists(old(files), p, possible)
    {
      if possible { files := Put(files, p, None); }
      ok := possible;
    }

    method MoveIfExists(from: Path, to: Path, possible: bool) returns (ok: bool)
      modifies this
      ensures (files, ok) == Aside(old(files), from, to, possible)
    {
      ok := true;
      if Has(files, from) { ok := Move(from, to, possible); }
    }

    method RestoreOriginalFiles(p: PutBackPlan) returns (ok: bool)
      modifies this
      ensures (files, ok) == PutBack(old(files), p)
    {
      ok := Drop(Database, p.removeDatabase);
      if !ok { return; }
      ok := MoveIfExists(RollbackDatabase, Database, p.moveDatabase);
      if !ok { return; }
      if Has(files, RollbackWal) {
        ok := Drop(Wal, p.removeWal);
        if !ok { return; }
        ok := Move(RollbackWal, Wal, p.moveWal);
        if !ok { return; }
      }
      if Has(files, RollbackShm) {
        ok := Drop(Shm, p.removeShm);
        if !ok { return; }
        ok := Move(RollbackShm, Shm, p.moveShm);
      }
    }

    method ReplaceDatabase(plan: Plan) returns (ok: bool)
      modifies this
      ensures (files, ok) == MoveIn(old(files), plan)
    {
      ok := MoveIfExists(Database, RollbackDatabase, plan.asideDatabase);
      if !ok { return; }
      ok := MoveIfExists(Wal, RollbackWal, plan.asideWal);
      if !ok { return; }
      ok := MoveIfExists(Shm, RollbackShm, plan.asideShm);
      if !ok { return; }
      ok := Move(Stage, Database, plan.moveStage);
    }

    method Apply(image: Content, plan: Plan) returns (outcome: Outcome)
      modifies this
      ensures (files, outcome) == ApplyRestore(old(files), image, plan)
    {
      if Has(files, Database) {
        if !plan.prebackup {
          var _ := Drop(Stage, plan.dropStage);
          return Refused;
        }
        files := files.(prebackup := files.database);
      }
      if !plan.staging {
        var _ := Drop(Stage, plan.dropStage);
        return Refused;
      }
      files := files.(stage := Some(image));
      var ok := ReplaceDatabase(plan);
      if ok { files := Opened(files, plan); }
      if !ok || !plan.verified {
        ok := RestoreOriginalFiles(plan.putBack);
        outcome := if ok && plan.syncBack then SaysRestored else PutBackFailed;
      } else {
        var _ := Drop(RollbackDatabase, plan.dropDatabase);
        var staleWal := Has(files, RollbackWal);
        ok := Drop(RollbackWal, plan.dropWal);
        outcome := CleanupFailed;
        if ok {
          var staleShm := Has(files, RollbackShm);
          ok := Drop(RollbackShm, plan.dropShm);
          if ok && plan.syncDone { outcome := Done(staleWal, staleShm); }
        }
      }
      var _ := Drop(Stage, plan.dropStage);
    }
  }

  // ---------- What a restore guarantees ----------

  predicate Target(p: Path) { p.Database? || p.Wal? || p.Shm? }

  /** A directory in which a restore may start: its own file names are new. */
  predicate Fresh(files: Files) {
    && files.stage.None? && files.prebackup.None?
    && files.rollbackDatabase.None? && files.rollbackWal.None? && files.rollbackShm.None?
  }

  /** The three files the database consists of. */
  predicate SameTarget(x: Files, y: Files) {
    x.database == y.database && x.wal == y.wal && x.shm == y.shm
  }

  function RollbackOf(p: Path): Path
    requires Target(p)
  {
    match p
    case Database => RollbackDatabase
    case Wal => RollbackWal
    case Shm => RollbackShm
  }

  /** `p` is in its place and not set aside, or set aside and not in its place. */
  predicate Whole(m: Files, files: Files, p: Path)
    requires Target(p)
  {
    || (Get(m, p) == Get(files, p) && !Has(m, RollbackOf(p)))
    || (!Has(m, p) && Has(files, p) && Get(m, RollbackOf(p)) == Get(files, p))
  }

  predicate NoneAside(files: Files) {
    files.rollbackDatabase.None? && files.rollbackWal.None? && files.rollbackShm.None?
  }

  /** A move in that succeeds has set all originals aside. */
  lemma MoveInSucceeds(files: Files, plan: Plan)
    requires NoneAside(files) && MoveIn(files, plan).1
    ensures var m := MoveIn(files, plan).0;
            && m.prebackup == files.prebackup && m.database == files.stage && m.wal.None? && m.shm.None?
            && m.rollbackDatabase == files.database && m.rollbackWal == files.wal && m.rollbackShm == files.shm
  {}

  /** One that fails has left each of them whole. */
  lemma MoveInFails(files: Files, plan: Plan)
    requires NoneAside(files) && !MoveIn(files, plan).1
    ensures var m := MoveIn(files, plan).0;
            && m.prebackup == files.prebackup
            && Whole(m, files, Database) && Whole(m, files, Wal) && Whole(m, files, Shm)
            && (m.database.Some? <==> files.database.Some? && !plan.asideDatabase)
  {}

  /** When no operation fails, every file set aside is back. */
  lemma PutBackSucceeds(files: Files, p: PutBackPlan)
    requires PutBack(files, p).1
    ensures var after := PutBack(files, p).0;
            && after.database == files.rollbackDatabase
            && after.wal == (if files.rollbackWal.Some? then files.rollbackWal else files.wal)
            && after.shm == (if files.rollbackShm.Some? then files.rollbackShm else files.shm)
  {}

  lemma PutBackSparesPrebackup(files: Files, p: PutBackPlan)
    ensures PutBack(files, p).0.prebackup == files.prebackup
  {}

  /** Whatever fails, every file set aside is still set aside or in place again. */
  lemma PutBackKeeps(files: Files, p: PutBackPlan, x: Path)
    requires Target(x)
    ensures Has(files, RollbackOf(x)) ==>
              Get(PutBack(files, p).0, x) == Get(files, RollbackOf(x))
              || Get(PutBack(files, p).0, RollbackOf(x)) == Get(files, RollbackOf(x))
    ensures !Has(files, RollbackOf(x)) && !x.Database? ==> Get(PutBack(files, p).0, x) == Get(files, x)
  {}

  /** Every rename of the move in succeeds. */
  predicate MovesIn(files: Files, plan: Plan) {
    && (files.database.Some? ==> plan.asideDatabase) && (files.wal.Some? ==> plan.asideWal)
    && (files.shm.Some? ==> plan.asideShm) && plan.moveStage
  }

  lemma MoveInIff(files: Files, plan: Plan)
    requires files.stage.Some?
    ensures MoveIn(files, plan).1 <==> MovesIn(files, plan)
  {}

  /** The database could be set aside and verification left no sidecar that was not there before:
      a condition on the operations that succeed. */
  predicate Recoverable(files: Files, plan: Plan) {
    && (files.database.Some? ==> plan.asideDatabase)
    && (MovesIn(files, plan) ==>
          (plan.madeWal.Some? ==> files.wal.Some?) && (plan.madeShm.Some? ==> files.shm.Some?))
  }

  /** An error that says the original state is back is right exactly when the database could be
      set aside and verification left no sidecar that was not there before. */
  lemma ClaimIsTrueIff(files: Files, image: Content, plan: Plan)
    requires Fresh(files)
    requires ApplyRestore(files, image, plan).1 == SaysRestored
    ensures SameTarget(ApplyRestore(files, image, plan).0, files) <==> Recoverable(files, plan)
  {
    var staged := Staged(files, image);
    var (m, ok) := MoveIn(staged, plan);
    MoveInIff(staged, plan);
    if ok { MoveInSucceeds(staged, plan); } else { MoveInFails(staged, plan); }
    PutBackSucceeds(if ok then Opened(m, plan) else m, plan.putBack);
  }

  /** Roll-back operations that all succeed never leave the roll-back failed. */
  lemma PutBackNeverFails(files: Files, image: Content, plan: Plan)
    requires plan.putBack == PutBackPlan(true, true, true, true, true, true) && plan.syncBack
    ensures ApplyRestore(files, image, plan).1 != PutBackFailed
  {}

  /** Whatever fails, a file of the original is in place or set aside, unless the restore is
      complete or the database could not be set aside in the first place. */
  lemma OriginalKept(files: Files, image: Content, plan: Plan, p: Path)
    requires Fresh(files) && Target(p) && Has(files, p)
    requires files.database.Some? ==> plan.asideDatabase
    ensures var (after, outcome) := ApplyRestore(files, image, plan);
            outcome.Done? || outcome.CleanupFailed?
            || Get(after, p) == Get(files, p) || Get(after, RollbackOf(p)) == Get(files, p)
  {
    var staged := Staged(files, image);
    var (m, ok) := MoveIn(staged, plan);
    if ok { MoveInSucceeds(staged, plan); } else { MoveInFails(staged, plan); }
    PutBackKeeps(if ok then Opened(m, plan) else m, plan.putBack, p);
  }

  /** The backup taken first holds the original database in every case in which files move. */
  lemma PrebackupKept(files: Files, image: Content, plan: Plan)
    requires Fresh(files) && files.database.Some? && plan.prebackup
    ensures ApplyRestore(files, image, plan).0.prebackup == files.database
  {
    var staged := Staged(files, image);
    var (m, ok) := MoveIn(staged, plan);
    if ok { MoveInSucceeds(staged, plan); } else { MoveInFails(staged, plan); }
    PutBackSparesPrebackup(if ok then Opened(m, plan) else m, plan.putBack);
  }

  /** A completed restore has the image in place, no original sidecar left, and reports the ones
      it removed. */
  lemma DoneMeansReplaced(files: Files, image: Content, plan: Plan)
    requires Fresh(files) && ApplyRestore(files, image, plan).1.Done?
    ensures var (after, outcome) := ApplyRestore(files, image, plan);
            && after.database == Some(image) && after.wal == plan.madeWal && after.shm == plan.madeShm
            && after.rollbackWal.None? && after.rollbackShm.None?
            && outcome == Done(files.wal.Some?, files.shm.Some?)
  {
    MoveInSucceeds(Staged(files, image), plan);
  }

  lemma RefusedMeansUntouched(files: Files, image: Content, plan: Plan)
    requires Fresh(files) && ApplyRestore(files, image, plan).1.Refused?
    ensures SameTarget(ApplyRestore(files, image, plan).0, files)
  {}

  /** A rename that fails on the database itself makes the roll-back delete it. */
  lemma FailedFirstMoveLosesTarget(files: Files, image: Content, plan: Plan)
    requires Fresh(files) && files.database.Some? && plan.prebackup && plan.staging
    requires !plan.asideDatabase && plan.putBack.removeDatabase
    ensures ApplyRestore(files, image, plan).0.database.None?
    ensures plan.syncBack ==> ApplyRestore(files, image, plan).1 == SaysRestored
  {}

  /** A rename succeeds exactly if it is possible and there is a file; it then takes the place of the other. */
  lemma RenameMoves(files: Files, from: Path, to: Path, possible: bool)
    requires from != to
    ensures var (after, ok) := Rename(files, from, to, possible);
            && (ok <==> possible && Has(files, from))
            && (ok ==> !Has(after, from) && Get(after, to) == Get(files, from)) && (!ok ==> after == files)
            && forall p :: p != from && p != to ==> Get(after, p) == Get(files, p)
  {}

  // ---------- How a restore ends ----------

  /** The restore gets as far as moving files. */
  predicate Starts(files: Files, plan: Plan) { (files.database.Some? ==> plan.prebackup) && plan.staging }

  /** Which originals get set aside, one after the other. */
  predicate SetsAside(files: Files, plan: Plan, p: Path) {
    match p
    case Database => files.database.Some? && plan.asideDatabase
    case Wal => files.wal.Some? && plan.asideWal && (files.database.Some? ==> plan.asideDatabase)
    case Shm =>
      && files.shm.Some? && plan.asideShm
      && (files.database.Some? ==> plan.asideDatabase) && (files.wal.Some? ==> plan.asideWal)
    case _ => false
  }

  /** Every operation that the roll-back needs succeeds: removing what is in the database's place, and
      bringing back what was set aside. */
  predicate RollsBack(files: Files, plan: Plan) {
    var p := plan.putBack;
    && p.removeDatabase && plan.syncBack
    && (SetsAside(files, plan, Database) ==> p.moveDatabase)
    && (SetsAside(files, plan, Wal) ==> p.removeWal && p.moveWal)
    && (SetsAside(files, plan, Shm) ==> p.removeShm && p.moveShm)
  }

  lemma DatabaseAside(files: Files, plan: Plan)
    requires NoneAside(files) && files.stage.Some?
    ensures MoveIn(files, plan).0.rollbackDatabase.Some? <==> SetsAside(files, plan, Database)
  {}

  lemma WalAside(files: Files, plan: Plan)
    requires NoneAside(files) && files.stage.Some?
    ensures MoveIn(files, plan).0.rollbackWal.Some? <==> SetsAside(files, plan, Wal)
  {}

  lemma ShmAside(files: Files, plan: Plan)
    requires NoneAside(files) && files.stage.Some?
    ensures MoveIn(files, plan).0.rollbackShm.Some? <==> SetsAside(files, plan, Shm)
  {}

  lemma PutBackIff(files: Files, p: PutBackPlan)
    ensures PutBack(files, p).1 <==>
            && p.removeDatabase && (files.rollbackDatabase.Some? ==> p.moveDatabase)
            && (files.rollbackWal.Some? ==> p.removeWal && p.moveWal)
            && (files.rollbackShm.Some? ==> p.removeShm && p.moveShm)
  {}

  /** How a restore ends, from the operations that succeed: it is refused before it starts; it is rolled
      back if a rename or the verification fails; and otherwise the leftovers decide. */
  lemma OutcomeIff(files: Files, image: Content, plan: Plan)
    requires Fresh(files)
    ensures var outcome := ApplyRestore(files, image, plan).1;
            var replaced := MovesIn(files, plan) && plan.verified;
            var cleaned := plan.dropWal && plan.dropShm && plan.syncDone;
            && (outcome.Refused? <==> !Starts(files, plan))
            && (outcome.Done? <==> Starts(files, plan) && replaced && cleaned)
            && (outcome.CleanupFailed? <==> Starts(files, plan) && replaced && !cleaned)
            && (outcome.SaysRestored? <==> Starts(files, plan) && !replaced && RollsBack(files, plan))
            && (outcome.PutBackFailed? <==> Starts(files, plan) && !replaced && !RollsBack(files, plan))
  {
    var staged := Staged(files, image);
    var (m, ok) := MoveIn(staged, plan);
    MoveInIff(staged, plan);
    DatabaseAside(staged, plan);
    WalAside(staged, plan);
    ShmAside(staged, plan);
    PutBackIff(if ok then Opened(m, plan) else m, plan.putBack);
  }

  /** Moving in leaves the staged image where it is or puts it in place. */
  lemma StageMoves(files: Files, plan: Plan)
    ensures var (m, ok) := MoveIn(files, plan); m.stage == if ok then None else files.stage
  {}

  lemma PutBackSparesStage(files: Files, p: PutBackPlan)
    ensures PutBack(files, p).0.stage == files.stage
  {}

  /** The staged image is gone at the end if it can be removed or got in, and otherwise still there. */
  lemma StageDropped(files: Files, image: Content, plan: Plan)
    requires Fresh(files)
    ensures ApplyRestore(files, image, plan).0.stage ==
            if plan.dropStage || !Starts(files, plan) || MovesIn(files, plan) then None else Some(image)
  {
    var staged := Staged(files, image);
    var (m, ok) := MoveIn(staged, plan);
    StageMoves(staged, plan);
    MoveInIff(staged, plan);
    PutBackSparesStage(if ok then Opened(m, plan) else m, plan.putBack);
  }

  /** A file that the roll-back cannot remove stays as it is. */
  lemma FailedRemovalKeeps(files: Files, p: PutBackPlan)
    ensures !p.removeDatabase ==> PutBack(files, p) == (files, false)
    ensures !p.removeWal ==> PutBack(files, p).0.wal == files.wal
    ensures !p.removeShm ==> PutBack(files, p).0.shm == files.shm
  {}

  /** A restore that ends with a failed clean-up has the image in place all the same. */
  lemma CleanupKeepsImage(files: Files, image: Content, plan: Plan)
    requires Fresh(files) && ApplyRestore(files, image, plan).1.CleanupFailed?
    ensures var after := ApplyRestore(files, image, plan).0;
            after.database == Some(image) && after.wal == plan.madeWal && after.shm == plan.madeShm
  {
    MoveInSucceeds(Staged(files, image), plan);
  }
}
