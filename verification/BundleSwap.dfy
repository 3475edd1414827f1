/** Installing a bundle by a same-volume swap, with faults and crashes at any primitive. */
module BundleSwap {
  import opened Options

  /** A directory tree: absent, a complete tree with the given identity, or what an interrupted copy or
      deletion leaves. The fingerprint is taken to be injective: it tells complete trees apart, and no
      torn tree has the fingerprint of a complete one. */
  datatype Tree = Absent | Whole(id: nat) | Torn

  /** `state.edn`; no file is the same as an empty book. */
  datatype Book = Book(baseline: Option<nat>, lastInstall: Option<nat>)

  /** `aside` is the old path, where the swap parks the previous bundle. */
  datatype Disk = Disk(bundle: Tree, stage: Tree, aside: Tree, baseline: Tree, txn: bool, book: Book)

  datatype Path = Bundle | Stage | Aside | Baseline

  function At(d: Disk, p: Path): Tree
  {
    match p
    case Bundle => d.bundle
    case Stage => d.stage
    case Aside => d.aside
    case Baseline => d.baseline
  }

  function With(d: Disk, p: Path, t: Tree): Disk
  {
    match p
    case Bundle => d.(bundle := t)
    case Stage => d.(stage := t)
    case Aside => d.(aside := t)
    case Baseline => d.(baseline := t)
  }

  function Fingerprint(t: Tree): Option<nat> { if t.Whole? then Some(t.id) else None }

  datatype Status = Interrupted | Unmanaged | Clean | Patched | Drifted

  function StatusOf(d: Disk): Status
  {
    if d.txn || d.stage != Absent || d.aside != Absent then Interrupted
    else if d.book.baseline.None? then Unmanaged
    else if d.book.baseline == Fingerprint(d.bundle) then Clean
    else if d.book.lastInstall.Some? && d.book.lastInstall == Fingerprint(d.bundle) then Patched
    else Drifted
  }

  /** How one primitive ends. `Lies` is an effect silently not achieved. */
  datatype Fault = Works | ThrowsBefore | ThrowsMidway | Lies

  /** The previous bundle is whole at the bundle or the old path, or the new one is at the bundle path. */
  predicate Safe(d: Disk, prev: Tree, next: nat) { d.bundle == prev || d.aside == prev || d.bundle == Whole(next) }

  datatype Request = Request(
    running: bool, candidate: Option<nat>, signed: bool, shaAgrees: bool,
    installedShaAgrees: bool, stagedSigned: bool, swappedSigned: bool)

  datatype Outcome = Refused | Installed | Idempotent | Failed

  /** What a later restore goes by. */
  function Trusted(d: Disk): (Tree, Option<nat>) { (d.baseline, d.book.baseline) }

  /** Where a transaction's body left the trees. */
  predicate Settled(d: Disk, prev: Tree, next: nat)
  {
    d.aside == prev || (d.aside == Absent && (d.bundle == prev || d.bundle == Whole(next)))
  }

  /** Every check made during a patch passes; the digest of the installed bundle only matters without a baseline. */
  predicate Admitted(request: Request, book: Book)
  {
    request.stagedSigned && request.swappedSigned && (book.baseline.Some? || request.installedShaAgrees)
  }

  /** What a patch leaves when one of them does not and nothing else fails: the bundle as it was, a baseline if one was
      due by then, no transaction; and a stage refused for its signature stays where it is. */
  function Rejected(d: Disk, request: Request, next: nat): Disk
  {
    if d.book.baseline.Some? || request.installedShaAgrees then
      d.(txn := false, stage := if request.stagedSigned then Absent else Whole(next),
         baseline := if d.book.baseline.Some? then d.baseline else d.bundle,
         book := if d.book.baseline.Some? then d.book else Book(Fingerprint(d.bundle), None))
    else d.(txn := false)
  }

  class Store {
    var disk: Disk
    const faults: nat -> Fault
    var clock: nat
    /** Every disk a crash could leave behind, in order. */
    ghost var history: seq<Disk>

    constructor (disk: Disk, faults: nat -> Fault)
      ensures this.disk == disk && this.faults == faults && clock == 0 && history == []
    {
      this.disk, this.faults, clock, history := disk, faults, 0, [];
    }

    ghost predicate SafeSince(n: nat, prev: Tree, next: nat)
      reads this
    {
      n <= |history| && forall i | n <= i < |history| :: Safe(history[i], prev, next)
    }

    ghost predicate OpenSince(n: nat)
      reads this
    {
      n <= |history| && forall i | n <= i < |history| :: history[i].txn
    }

    /** The trusted baseline, tree and record, has been what it is now all the time. */
    ghost predicate TrustSince(n: nat)
      reads this
    {
      n <= |history| && forall i | n <= i < |history| :: Trusted(history[i]) == Trusted(disk)
    }

    /** Nothing happens after the transaction record is gone, and until then the status is interrupted. */
    ghost predicate InterruptedUntilFinished(n: nat)
      reads this
    {
      && n <= |history|
      && forall i | n <= i < |history| && (i < |history| - 1 || disk.txn) :: StatusOf(history[i]) == Interrupted
    }

    ghost predicate Smooth(start: nat, count: nat) { forall k: nat | start <= k < start + count :: faults(k) == Works }

    // Primitives

    method Become(d: Disk)
      modifies this`disk, this`history
      ensures disk == d && history == old(history) + [d]
    {
      disk := d;
      history := history + [d];
    }

    method Draw() returns (fault: Fault)
      modifies this`clock
      ensures fault == faults(old(clock)) && clock == old(clock) + 1
    {
      fault := faults(clock);
      clock := clock + 1;
    }

    method DeleteTree(p: Path) returns (ok: bool)
      modifies this
      ensures old(At(disk, p)) == Absent ==> ok && disk == old(disk) && history == old(history) && clock == old(clock)
      ensures old(At(disk, p)) != Absent ==>
        var torn, gone := With(old(disk), p, Torn), With(old(disk), p, Absent);
        && clock == old(clock) + 1
        && match faults(old(clock))
           case ThrowsBefore => !ok && disk == old(disk) && history == old(history)
           case ThrowsMidway => !ok && disk == torn && history == old(history) + [torn]
           case _ => ok && disk == gone && history == old(history) + [torn] + [gone]
    {
      if At(disk, p) == Absent {
        return true;
      }
      var start := disk;
      var fault := Draw();
      if fault == ThrowsBefore {
        return false;
      }
      Become(With(start, p, Torn));
      if fault == ThrowsMidway {
        return false;
      }
      Become(With(start, p, Absent));
      return true;
    }

    /** A copy that throws or lies leaves a torn tree. */
    method CopyTree(source: Tree, p: Path) returns (ok: bool)
      modifies this
      ensures clock == old(clock) + 1
      ensures faults(old(clock)) == ThrowsBefore ==> disk == old(disk) && history == old(history)
      ensures faults(old(clock)) != ThrowsBefore ==>
        var torn, made := With(old(disk), p, Torn), With(old(disk), p, source);
        && disk == (if faults(old(clock)) == Works then made else torn)
        && history == old(history) + (if faults(old(clock)) == Works then [torn] + [made] else [torn])
      ensures ok == (faults(old(clock)) == Works || faults(old(clock)) == Lies)
    {
      var start := disk;
      var fault := Draw();
      if fault == ThrowsBefore {
        return false;
      }
      Become(With(start, p, Torn));
      if fault == Works {
        Become(With(start, p, source));
      }
      return fault != ThrowsMidway;
    }

    method AtomicMove(source: Path, target: Path) returns (ok: bool)
      modifies this
      ensures clock == old(clock) + 1 && ok == (faults(old(clock)) == Works)
      ensures var moved := With(With(old(disk), target, At(old(disk), source)), source, Absent);
        && disk == (if ok then moved else old(disk))
        && history == (if ok then old(history) + [moved] else old(history))
    {
      var fault := Draw();
      if fault != Works {
        return false;
      }
      Become(With(With(disk, target, At(disk, source)), source, Absent));
      return true;
    }

    /** Recomputes the fingerprint and compares; a read error counts as a mismatch, both throw. */
    method Matches(p: Path, expected: nat) returns (ok: bool)
      modifies this`clock
      ensures clock == old(clock) + 1
      ensures ok <==> faults(old(clock)) == Works && Fingerprint(At(disk, p)) == Some(expected)
    {
      var fault := Draw();
      return fault == Works && Fingerprint(At(disk, p)) == Some(expected);
    }

    method WriteBook(book: Book) returns (ok: bool)
      modifies this
      ensures clock == old(clock) + 1 && ok == (faults(old(clock)) == Works)
      ensures disk == (if ok then old(disk).(book := book) else old(disk))
      ensures history == (if ok then old(history) + [disk] else old(history))
    {
      var fault := Draw();
      if fault == Works {
        Become(disk.(book := book));
      }
      return fault == Works;
    }

    method BeginTxn() returns (ok: bool)
      modifies this
      ensures clock == old(clock) + 1 && ok == (faults(old(clock)) == Works)
      ensures disk == (if ok then old(disk).(txn := true) else old(disk))
      ensures history == (if ok then old(history) + [disk] else old(history))
    {
      var fault := Draw();
      if fault == Works {
        Become(disk.(txn := true));
      }
      return fault == Works;
    }

    /** The history record first, then the current one; deleting the latter can fail without a word. */
    method FinishTxn() returns (ok: bool)
      modifies this
      ensures clock == old(clock) + 1
      ensures ok == (faults(old(clock)) == Works || faults(old(clock)) == Lies)
      ensures disk == (if faults(old(clock)) == Works then old(disk).(txn := false) else old(disk))
      ensures history == (if faults(old(clock)) == Works then old(history) + [disk] else old(history))
    {
      var fault := Draw();
      if fault == Works {
        Become(disk.(txn := false));
      }
      return fault == Works || fault == Lies;
    }

    // The swap

    /** Puts the old bundle back. It is safe whenever `old` still holds the previous bundle; with a torn `old`
        over the verified new bundle it is safe only if it fails before touching anything. */
    method RollbackToOld(ghost n: nat, ghost prev: Tree, ghost next: nat) returns (ok: bool)
      requires prev.Whole? && n <= |history|
      requires Settled(disk, prev, next) || (disk.aside == Torn && disk.bundle == Whole(next))
      modifies this
      ensures old(history) <= history
      ensures disk.txn == old(disk.txn) && disk.book == old(disk.book) && disk.stage == old(disk.stage)
      ensures Trusted(disk) == old(Trusted(disk)) && (old(TrustSince(n)) ==> TrustSince(n))
      ensures old(disk.txn && OpenSince(n)) ==> OpenSince(n)
      ensures old(Settled(disk, prev, next)) ==>
        && Settled(disk, prev, next) && (old(SafeSince(n, prev, next)) ==> SafeSince(n, prev, next))
        && (ok && old(disk.aside) == prev ==> disk.bundle == prev && disk.aside == Absent)
      ensures old(disk.aside) == Torn && old(SafeSince(n, prev, next)) ==>
        SafeSince(n, prev, next) == (faults(old(clock)) == ThrowsBefore)
      ensures old(disk.aside) == Absent ==> disk == old(disk) && history == old(history) && clock == old(clock) && ok
      ensures old(disk.aside) != Absent && faults(old(clock)) == ThrowsBefore ==>
        !ok && disk == old(disk) && history == old(history)
      ensures old(disk.aside) != Absent && Smooth(old(clock), 2) ==>
        ok && old(clock) <= clock <= old(clock) + 2 && disk == old(disk).(bundle := old(disk.aside), aside := Absent)
    {
      if disk.aside == Absent {
        return true;
      }
      ok := DeleteTree(Bundle);
      if ok {
        ok := AtomicMove(Aside, Bundle);
      }
      if old(disk.aside) == Torn && faults(old(clock)) != ThrowsBefore {
        assert !Safe(history[|old(history)|], prev, next);
      }
    }

    /** The swap's own catch clause: the old bundle is put back, and then the stage deleted. */
    method UndoSwap(ghost n: nat, ghost prev: Tree, ghost next: nat)
      requires prev.Whole? && disk.aside == prev && disk.txn && SafeSince(n, prev, next) && OpenSince(n)
      modifies this
      ensures SafeSince(n, prev, next) && OpenSince(n) && Settled(disk, prev, next) && old(history) <= history
      ensures disk.txn && disk.book == old(disk.book)
      ensures Trusted(disk) == old(Trusted(disk)) && (old(TrustSince(n)) ==> TrustSince(n))
      ensures old(disk.stage) == Absent && Smooth(old(clock), 2) ==>
        disk == old(disk).(bundle := prev, aside := Absent) && old(clock) <= clock <= old(clock) + 2
    {
      var rolled := RollbackToOld(n, prev, next);
      if rolled {
        var _ := DeleteTree(Stage);
      }
    }

    /** installed to old, stage to installed, verify; on any failure the old one is put back. */
    method SwapAndVerify(next: nat, signed: bool, ghost n: nat, ghost prev: Tree) returns (ok: bool)
      requires prev.Whole? && disk.bundle == prev && disk.aside == Absent && disk.txn
      requires SafeSince(n, prev, next) && OpenSince(n)
      modifies this
      ensures SafeSince(n, prev, next) && OpenSince(n) && disk.txn && disk.book == old(disk.book)
      ensures Trusted(disk) == old(Trusted(disk)) && (old(TrustSince(n)) ==> TrustSince(n))
      ensures old(history) <= history
      ensures ok ==> signed && disk.bundle == Whole(next) && disk.aside == prev && disk.stage == Absent
      ensures !ok ==> Settled(disk, prev, next)
      ensures !signed && old(disk.stage) == Whole(next) && Smooth(old(clock), 5) ==>
        disk == old(disk).(stage := Absent) && old(clock) <= clock <= old(clock) + 5
      ensures old(disk.stage) == Whole(next) && signed && Smooth(old(clock), 3) ==> ok && clock == old(clock) + 3
    {
      var moved := AtomicMove(Bundle, Aside);
      if !moved {
        return false;
      }
      ok := AtomicMove(Stage, Bundle);
      if ok {
        ok := Matches(Bundle, next);
      }
      if !ok || !signed {
        UndoSwap(n, prev, next);
        return false;
      }
    }

    /** Whatever fails, only the stage differs on the way. */
    method CopyToStage(source: Tree, next: nat) returns (ok: bool)
      modifies this
      ensures disk == old(disk).(stage := disk.stage) && old(history) <= history
      ensures forall i | |old(history)| <= i < |history| :: history[i] == old(disk).(stage := history[i].stage)
      ensures ok ==> disk.stage == Whole(next)
      ensures old(disk.stage) == Absent && source == Whole(next) && Smooth(old(clock), 2) ==>
        ok && disk.stage == Whole(next) && clock == old(clock) + 2
    {
      ok := DeleteTree(Stage);
      if !ok {
        return;
      }
      ok := CopyTree(source, Stage);
      if ok {
        ok := Matches(Stage, next);
      }
    }

    /** Copies to the stage and verifies the copy; nothing else is touched. */
    method FillStage(source: Tree, next: nat, signed: bool, ghost n: nat, ghost prev: Tree) returns (ok: bool)
      requires disk.bundle == prev && disk.aside == Absent && disk.txn
      requires SafeSince(n, prev, next) && OpenSince(n)
      modifies this
      ensures SafeSince(n, prev, next) && OpenSince(n) && old(history) <= history
      ensures disk == old(disk).(stage := disk.stage)
      ensures Trusted(disk) == old(Trusted(disk)) && (old(TrustSince(n)) ==> TrustSince(n))
      ensures ok ==> signed && disk.stage == Whole(next)
      ensures !signed && old(disk.stage) == Absent && source == Whole(next) && Smooth(old(clock), 2) ==>
        disk.stage == Whole(next) && clock == old(clock) + 2
      ensures old(disk.stage) == Absent && source == Whole(next) && signed && Smooth(old(clock), 2) ==> ok && clock == old(clock) + 2
    {
      ok := CopyToStage(source, next);
      return ok && signed;
    }

    /** After the verified swap: drop the old bundle, keep the books, finish. */
    method Conclude(book: Book, ghost n: nat, ghost prev: Tree, ghost next: nat) returns (ok: bool)
      requires prev.Whole? && disk.bundle == Whole(next) && disk.aside == prev && disk.stage == Absent && disk.txn
      requires SafeSince(n, prev, next) && OpenSince(n) && book.baseline == disk.book.baseline
      modifies this
      ensures SafeSince(n, prev, next) && old(history) <= history && (disk.txn ==> OpenSince(n)) && InterruptedUntilFinished(n)
      ensures Trusted(disk) == old(Trusted(disk)) && (old(TrustSince(n)) ==> TrustSince(n))
      ensures Smooth(old(clock), 3) ==> ok && !disk.txn
      ensures disk.bundle == Whole(next)
      ensures ok ==> disk.aside == Absent && disk.stage == Absent && disk.book == book
      ensures !ok ==> disk.txn
      ensures disk.aside == Absent || disk.aside == prev || disk.aside == Torn
      ensures disk.aside == Torn ==> clock == old(clock) + 1 && !ok
      ensures disk.aside == Torn <==> faults(old(clock)) == ThrowsMidway
    {
      ok := DeleteTree(Aside);
      if !ok {
        return;
      }
      ok := WriteBook(book);
      if !ok {
        return;
      }
      ok := FinishTxn();
      if ok {
        var _ := DeleteTree(Stage);
        var _ := DeleteTree(Aside);
      }
    }

    /** A transaction's body from staging to the finished record. `deletion` is the moment at which the old
        bundle's deletion began. */
    method Install(source: Tree, next: nat, request: Request, book: Book, ghost n: nat, ghost prev: Tree)
      returns (ok: bool, ghost deletion: Option<nat>)
      requires prev.Whole? && disk.bundle == prev && disk.aside == Absent && disk.txn
      requires SafeSince(n, prev, next) && OpenSince(n) && book.baseline == disk.book.baseline
      modifies this
      ensures SafeSince(n, prev, next) && old(history) <= history && (disk.txn ==> OpenSince(n)) && InterruptedUntilFinished(n)
      ensures Trusted(disk) == old(Trusted(disk)) && (old(TrustSince(n)) ==> TrustSince(n))
      ensures ok ==> disk.bundle == Whole(next) && disk.aside == Absent && disk.stage == Absent && disk.book == book
      ensures ok ==> request.stagedSigned && request.swappedSigned
      ensures (&& !(request.stagedSigned && request.swappedSigned) && old(disk.stage) == Absent && source == Whole(next)
               && Smooth(old(clock), 7)) ==>
        disk == old(disk).(stage := if request.stagedSigned then Absent else source) && old(clock) <= clock <= old(clock) + 7
      ensures !ok ==> disk.txn && (Settled(disk, prev, next) || (disk.aside == Torn && disk.bundle == Whole(next)))
      ensures disk.aside == Torn <==> deletion.Some? && faults(deletion.value) == ThrowsMidway
      ensures disk.aside == Torn ==> !ok && clock == deletion.value + 1
      ensures (&& old(disk.stage) == Absent && source == Whole(next) && request.stagedSigned && request.swappedSigned
               && Smooth(old(clock), 5)) ==> deletion == Some(old(clock) + 5)
      ensures (&& old(disk.stage) == Absent && source == Whole(next) && request.stagedSigned && request.swappedSigned
               && Smooth(old(clock), 8)) ==> ok && !disk.txn
    {
      hide Store.SafeSince, Store.OpenSince, Store.TrustSince, Trusted;
      deletion := None;
      ok := FillStage(source, next, request.stagedSigned, n, prev);
      if !ok {
        return;
      }
      ok := SwapAndVerify(next, request.swappedSigned, n, prev);
      if !ok {
        return;
      }
      deletion := Some(clock);
      ok := Conclude(book, n, prev, next);
    }

    /** The catch clause: put the old bundle back and record the failure. */
    method Abort(ghost n: nat, ghost prev: Tree, ghost next: nat)
      requires prev.Whole? && n <= |history| && disk.txn && OpenSince(n) && SafeSince(n, prev, next)
      requires Settled(disk, prev, next) || (disk.aside == Torn && disk.bundle == Whole(next))
      modifies this
      ensures old(history) <= history
      ensures Trusted(disk) == old(Trusted(disk)) && (old(TrustSince(n)) ==> TrustSince(n))
      ensures old(Settled(disk, prev, next)) ==> SafeSince(n, prev, next) && Settled(disk, prev, next)
      ensures old(disk.aside) == Torn ==> SafeSince(n, prev, next) == (faults(old(clock)) == ThrowsBefore)
      ensures InterruptedUntilFinished(n)
      ensures old(disk.aside) == Torn && Smooth(old(clock), 2) ==> disk.bundle == Torn && disk.aside == Absent
      ensures old(disk.aside) == Absent && faults(old(clock)) == Works ==> disk == old(disk).(txn := false)
      ensures !disk.txn && SafeSince(n, prev, next) ==> disk.aside == Absent && Settled(disk, prev, next)
    {
      var ok := RollbackToOld(n, prev, next);
      ghost var rolled := history;
      if ok {
        var _ := FinishTxn();
      }
      if old(disk.aside) == Torn && faults(old(clock)) != ThrowsBefore {
        ghost var i :| n <= i < |rolled| && !Safe(rolled[i], prev, next);
        assert !Safe(history[i], prev, next);
      }
    }

    /** Copies the bundle to the baseline and verifies the copy; the bundle itself is only read. */
    method KeepBaseline(ghost n: nat, ghost prev: Tree, ghost next: nat) returns (ok: bool)
      requires prev.Whole? && disk.bundle == prev && disk.aside == Absent && disk.txn
      requires SafeSince(n, prev, next) && OpenSince(n)
      modifies this
      ensures SafeSince(n, prev, next) && OpenSince(n) && old(history) <= history
      ensures disk == old(disk).(baseline := disk.baseline, book := disk.book)
      ensures if ok then disk.baseline == prev && disk.book == Book(Some(prev.id), None) else disk.book == old(disk.book)
      ensures Smooth(old(clock), 4) ==> ok && old(clock) <= clock <= old(clock) + 4
    {
      var bundle := disk.bundle;
      ok := DeleteTree(Baseline);
      if ok {
        ok := CopyTree(bundle, Baseline);
      }
      if ok {
        ok := Matches(Baseline, bundle.id);
      }
      if ok {
        ok := WriteBook(Book(Some(bundle.id), None));
      }
    }

    /** What a caller of `Patch` or `Restore` can rely on, whatever fails or crashes: every disk a crash could
        leave from the transaction record on is safe, unless the deletion of the old bundle after a verified
        swap throws midway and the rollback's own deletion does not throw before it starts. */
    ghost predicate Guaranteed(n: nat, prev: Tree, next: nat, deletion: Option<nat>)
      reads this
    {
      n <= |history| &&
      (SafeSince(n, prev, next) ==
       !(deletion.Some? && faults(deletion.value) == ThrowsMidway && faults(deletion.value + 1) != ThrowsBefore))
    }

    method Transact(source: Tree, next: nat, request: Request, book: Book, ghost n: nat, ghost prev: Tree)
      returns (r: Outcome, ghost deletion: Option<nat>)
      requires prev.Whole? && disk.bundle == prev && disk.aside == Absent && disk.txn
      requires SafeSince(n, prev, next) && OpenSince(n) && book.baseline == disk.book.baseline
      modifies this
      ensures r == Installed || r == Failed
      ensures Trusted(disk) == old(Trusted(disk)) && (old(TrustSince(n)) ==> TrustSince(n))
      ensures (&& old(disk.stage) == Absent && source == Whole(next) && request.stagedSigned && request.swappedSigned
               && Smooth(old(clock), 8)) ==> r == Installed && !disk.txn
      ensures Guaranteed(n, prev, next, deletion) && InterruptedUntilFinished(n)
      ensures r == Installed ==>
        disk.bundle == Whole(next) && disk.aside == Absent && disk.stage == Absent && disk.book == book
      ensures r == Installed ==> request.stagedSigned && request.swappedSigned
      ensures (&& !(request.stagedSigned && request.swappedSigned) && old(disk.stage) == Absent && source == Whole(next)
               && Smooth(old(clock), 8)) ==>
        disk == old(disk).(txn := false, stage := if request.stagedSigned then Absent else source)
      ensures r == Failed && !disk.txn && SafeSince(n, prev, next) ==>
        disk.aside == Absent && (disk.bundle == prev || disk.bundle == Whole(next))
      ensures (&& old(disk.stage) == Absent && source == Whole(next) && request.stagedSigned && request.swappedSigned
               && Smooth(old(clock), 5) && faults(old(clock) + 5) == ThrowsMidway && Smooth(old(clock) + 6, 2)) ==>
        r == Failed && disk.bundle == Torn && disk.aside == Absent
    {
      hide Store.OpenSince, Store.TrustSince, Trusted;
      var ok;
      ok, deletion := Install(source, next, request, book, n, prev);
      if ok {
        return Installed, deletion;
      }
      Abort(n, prev, next);
      r := Failed;
    }

    /** The rest of `patch!` when there is something to install: a first baseline if there is none, and the body. */
    method Proceed(request: Request, next: nat, ghost n: nat, ghost prev: Tree) returns (r: Outcome, ghost deletion: Option<nat>)
      requires prev.Whole? && disk.bundle == prev && disk.aside == Absent && disk.txn
      requires SafeSince(n, prev, next) && OpenSince(n)
      modifies this
      ensures r == Installed || r == Failed
      ensures Guaranteed(n, prev, next, deletion) && InterruptedUntilFinished(n)
      ensures r == Installed ==>
        && disk.bundle == Whole(next) && disk.aside == Absent && disk.stage == Absent
        && disk.book == Book(if old(disk.book.baseline).Some? then old(disk.book.baseline) else Fingerprint(prev), Some(next))
        && disk.baseline == (if old(disk.book.baseline).Some? then old(disk.baseline) else prev)
      ensures r == Installed ==> Admitted(request, old(disk.book))
      ensures !Admitted(request, old(disk.book)) && old(disk.stage) == Absent && Smooth(old(clock), 12) ==>
        disk == Rejected(old(disk), request, next)
      ensures old(disk.book.baseline).Some? ==> Trusted(disk) == old(Trusted(disk)) && (old(TrustSince(n)) ==> TrustSince(n))
      ensures disk.book.baseline == old(disk.book.baseline) || disk.book.baseline == Fingerprint(prev)
      ensures (&& old(disk.stage) == Absent && request.stagedSigned && request.swappedSigned && request.installedShaAgrees
               && Smooth(old(clock), 12)) ==> r == Installed && !disk.txn
      ensures (&& old(disk.stage) == Absent && old(disk.book.baseline).Some? && request.stagedSigned && request.swappedSigned
               && Smooth(old(clock), 5) && faults(old(clock) + 5) == ThrowsMidway && Smooth(old(clock) + 6, 2)) ==>
        r == Failed && disk.bundle == Torn && disk.aside == Absent
    {
      hide Store.OpenSince, Store.TrustSince, Store.InterruptedUntilFinished;
      deletion := None;
      if disk.book.baseline.None? {
        var kept := false;
        if request.installedShaAgrees {
          kept := KeepBaseline(n, prev, next);
        }
        if !kept {
          Abort(n, prev, next);
          return Failed, None;
        }
      }
      r, deletion := Transact(Whole(next), next, request, disk.book.(lastInstall := Some(next)), n, prev);
    }

    /** Installs the candidate. A tree found at the bundle path has an identity, whatever made it; `Torn` is only
        what this run tears. Refusals leave the disk alone; afterwards an unfinished transaction, and only
        that or a residue, shows as interrupted. */
    method Patch(request: Request) returns (r: Outcome, ghost n: nat, ghost deletion: Option<nat>)
      requires disk.bundle != Torn
      modifies this
      ensures r == Refused ==> disk == old(disk) && history == old(history)
      ensures request.running || old(disk.bundle) == Absent || request.candidate.None? || !request.signed
              || !request.shaAgrees || old(StatusOf(disk)) == Interrupted || old(StatusOf(disk)) == Drifted
              ==> r == Refused
      ensures r != Refused ==>
        Guaranteed(n, old(disk.bundle), request.candidate.value, deletion) && InterruptedUntilFinished(n)
      ensures r == Installed ==>
        && disk.bundle == Whole(request.candidate.value) && disk.aside == Absent && disk.stage == Absent
        && disk.book == Book(if old(disk.book.baseline).Some? then old(disk.book.baseline) else Fingerprint(old(disk.bundle)),
                             request.candidate)
        && disk.baseline == (if old(disk.book.baseline).Some? then old(disk.baseline) else old(disk.bundle))
        && StatusOf(disk) == (if disk.txn then Interrupted else if disk.book.baseline == request.candidate then Clean else Patched)
      ensures old(disk.book.baseline).Some? ==> Trusted(disk) == old(Trusted(disk)) && TrustSince(n)
      ensures disk.book.baseline == old(disk.book.baseline) || disk.book.baseline == Fingerprint(old(disk.bundle))
      ensures (&& r != Refused && r != Idempotent && request.stagedSigned && request.swappedSigned && request.installedShaAgrees
               && Smooth(old(clock), 13)) ==> r == Installed && !disk.txn
      ensures r == Installed ==> Admitted(request, old(disk.book))
      ensures (&& r != Refused && r != Idempotent && !Admitted(request, old(disk.book)) && Smooth(old(clock), 13)) ==>
        r == Failed && disk == Rejected(old(disk), request, request.candidate.value)
      ensures n == |old(history)|
      ensures r == Idempotent ==> disk == old(disk) || disk == old(disk).(txn := true)
      ensures (&& r != Refused && r != Idempotent && old(disk.book.baseline).Some?
               && request.stagedSigned && request.swappedSigned
               && Smooth(old(clock), 6) && faults(old(clock) + 6) == ThrowsMidway && Smooth(old(clock) + 7, 2)) ==>
        r == Failed && disk.bundle == Torn && disk.aside == Absent
      ensures (&& !request.running && old(disk.bundle) != Absent && request.candidate.Some? && request.signed
               && request.shaAgrees && old(StatusOf(disk)) != Interrupted && old(StatusOf(disk)) != Drifted) ==> r != Refused
      ensures r == Idempotent ==> old(disk.book.lastInstall) == request.candidate == Fingerprint(old(disk.bundle))
      ensures (&& old(disk.book.lastInstall) == request.candidate == Fingerprint(old(disk.bundle)) && r != Refused
               && Smooth(old(clock), 2)) ==> r == Idempotent && disk == old(disk)
    {
      n, deletion := |history|, None;
      if request.running || disk.bundle == Absent || request.candidate.None? || !request.signed || !request.shaAgrees {
        return Refused, n, None;
      }
      var status := StatusOf(disk);
      if status == Interrupted || status == Drifted {
        return Refused, n, None;
      }
      var next := request.candidate.value;
      ghost var prev := disk.bundle;
      var begun := BeginTxn();
      if !begun {
        return Failed, n, None;
      }
      var installed := Fingerprint(disk.bundle);
      if disk.book.lastInstall.Some? && disk.book.lastInstall == installed && Some(next) == installed {
        var finished := FinishTxn();
        return if finished then Idempotent else Failed, n, None;
      }
      r, deletion := Proceed(request, next, n, prev);
    }

    /** Brings the baseline back. Its stage is compared with the baseline but its signature is not checked. */
    method Restore(request: Request) returns (r: Outcome, ghost n: nat, ghost deletion: Option<nat>)
      requires disk.bundle != Torn
      modifies this
      ensures r == Refused ==> disk == old(disk) && history == old(history)
      ensures r == Idempotent <==> !request.running && old(StatusOf(disk)) == Clean
      ensures r == Idempotent ==> disk == old(disk)
      ensures r != Refused && r != Idempotent ==>
        old(disk.book.baseline).Some? && Guaranteed(n, old(disk.bundle), old(disk.book.baseline).value, deletion)
        && InterruptedUntilFinished(n)
      ensures r == Installed ==> StatusOf(disk) == (if disk.txn then Interrupted else Clean)
      ensures r == Installed ==>
        && Fingerprint(disk.bundle) == old(disk.book.baseline) && disk.book == Book(old(disk.book.baseline), None)
        && disk.stage == Absent && disk.aside == Absent
      ensures Trusted(disk) == old(Trusted(disk)) && TrustSince(n) && n == |old(history)|
      ensures r == Refused ==> clock <= old(clock) + 1
      ensures (request.running || old(disk.book.baseline).None? || old(StatusOf(disk)) == Interrupted
               || old(StatusOf(disk)) == Drifted) ==> r == Refused
      ensures !request.running && old(StatusOf(disk)) == Patched ==>
        (r == Refused <==> faults(old(clock)) != Works || Fingerprint(old(disk.baseline)) != old(disk.book.baseline))
      ensures r == Installed ==> request.swappedSigned
      ensures r != Refused && r != Idempotent && Smooth(old(clock), 10) ==>
        if request.swappedSigned then r == Installed && !disk.txn else r == Failed && disk == old(disk)
    {
      n, deletion := |history|, None;
      if request.running || disk.book.baseline.None? {
        return Refused, n, None;
      }
      var status := StatusOf(disk);
      if status == Interrupted || status == Drifted {
        return Refused, n, None;
      }
      if status == Clean {
        return Idempotent, n, None;
      }
      var next := disk.book.baseline.value;
      var verified := Matches(Baseline, next);
      if !verified || disk.book.lastInstall.None? || disk.book.lastInstall != Fingerprint(disk.bundle) {
        return Refused, n, None;
      }
      ghost var prev := disk.bundle;
      var begun := BeginTxn();
      if !begun {
        return Failed, n, None;
      }
      r, deletion := Transact(disk.baseline, next, request.(stagedSigned := true), Book(disk.book.baseline, None), n, prev);
    }
  }

  /** The five states, each by what the disk holds. */
  lemma StatusMeans(d: Disk)
    ensures StatusOf(d) == Interrupted <==> d.txn || d.stage != Absent || d.aside != Absent
    ensures var settled, installed := !d.txn && d.stage == Absent && d.aside == Absent, Fingerprint(d.bundle);
      && (StatusOf(d) == Unmanaged <==> settled && d.book.baseline == None)
      && (StatusOf(d) == Clean <==> settled && d.book.baseline.Some? && installed == d.book.baseline)
      && (StatusOf(d) == Patched <==>
            settled && d.book.baseline.Some? && installed.Some? && installed != d.book.baseline && installed == d.book.lastInstall)
      && (StatusOf(d) == Drifted <==>
            settled && d.book.baseline.Some? && installed != d.book.baseline && (installed == None || installed != d.book.lastInstall))
  {
  }

  /** A patch refused by one of its checks leaves the bundle alone, and the status interrupted if and only if it was the
      stage's signature: nothing deletes that stage. */
  lemma RefusedStageInterrupts(d: Disk, request: Request, next: nat)
    requires StatusOf(d) != Interrupted && !Admitted(request, d.book)
    ensures Rejected(d, request, next).bundle == d.bundle
    ensures StatusOf(Rejected(d, request, next)) == Interrupted
            <==> !request.stagedSigned && (d.book.baseline.Some? || request.installedShaAgrees)
  {
  }

  /** An unmanaged bundle, patched and restored with nothing failing, is the bundle it was, and clean. */
  method PatchThenRestore(bundle: nat, kept: Tree, candidate: nat) returns (patched: Disk, end: Disk)
    ensures StatusOf(patched) == (if candidate == bundle then Clean else Patched)
    ensures patched.bundle == Whole(candidate) && patched.baseline == Whole(bundle)
    ensures end.bundle == Whole(bundle) && end.baseline == Whole(bundle) && StatusOf(end) == Clean
  {
    var store := new Store(Disk(Whole(bundle), Absent, Absent, kept, false, Book(None, None)), _ => Works);
    var request := Request(false, Some(candidate), true, true, true, true, true);
    ghost var n, deletion;
    var r;
    r, n, deletion := store.Patch(request);
    patched := store.disk;
    r, n, deletion := store.Restore(request);
    end := store.disk;
  }

  /** The failing case: baseline kept, patched to 2, now patching to 3 with every check passing. The deletion of
      the old bundle throws midway, and the rollback deletes the verified new bundle and moves the remains of the
      old one into its place. */
  method TornDeletionLosesBoth() returns (r: Outcome, end: Disk)
    ensures r == Failed && end.bundle == Torn && end.aside == Absent
  {
    var faults: nat -> Fault := k => if k == 6 then ThrowsMidway else Works;
    var disk := Disk(Whole(2), Absent, Absent, Whole(1), false, Book(Some(1), Some(2)));
    var store := new Store(disk, faults);
    ghost var n, deletion;
    r, n, deletion := store.Patch(Request(false, Some(3), true, true, true, true, true));
    end := store.disk;
  }
}
