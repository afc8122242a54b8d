/** Versions and confirmations of an import batch along every run. */
module BatchImportVersions {
  import opened Basics
  import opened BatchImport

  // ---------------------------------------------------------------- versions

  /** The move takes the batch to another preview: a revision or a reopening takes effect. */
  predicate MovesOn(b: Batch, move: Move) {
    match move
    case Row(UpdateReopen(r)) => (match FlightOf(b, r) case Some(ReopenChecked(_)) => true case _ => false)
    case Row(Revise(expected)) => b.version == expected && b.status == Preview
    case _ => false
  }

  /** The update of a reopening finds another version than the one that was read. */
  predicate Stale(b: Batch, move: Move) {
    match move
    case Row(UpdateReopen(r)) => (match FlightOf(b, r) case Some(ReopenChecked(version)) => version != b.version case _ => false)
    case _ => false
  }

  ghost predicate NeverStale(b: Batch, moves: seq<Move>)
    decreases |moves|
  {
    moves == [] || (!Stale(b, moves[0]) && NeverStale(Do(b, moves[0]), moves[1..]))
  }

  /** Every revision and every reopening raises the version. */
  ghost predicate AlwaysGrows(b: Batch, moves: seq<Move>)
    decreases |moves|
  {
    moves == [] ||
    ((MovesOn(b, moves[0]) ==> Do(b, moves[0]).version > b.version) && AlwaysGrows(Do(b, moves[0]), moves[1..]))
  }

  /** How many revisions and reopenings took effect. */
  ghost function TimesMovedOn(b: Batch, moves: seq<Move>): nat
    decreases |moves|
  {
    if moves == [] then 0
    else (if MovesOn(b, moves[0]) then 1 else 0) + TimesMovedOn(Do(b, moves[0]), moves[1..])
  }

  predicate HoldsUpTo(f: Flight, version: nat) {
    match f
    case ReopenRead(v, _) => v <= version
    case ReopenChecked(v) => v <= version
    case _ => true
  }

  /** No reopening under way has read a version above the current one. */
  ghost predicate NobodyAhead(b: Batch) {
    forall r | r in b.flights :: HoldsUpTo(b.flights[r], b.version)
  }

  lemma RowAndVersion(b: Batch, write: RowWrite)
    requires NobodyAhead(b)
    ensures var next := WriteRow(b, write);
      if Stale(b, Row(write)) then next.version <= b.version
      else NobodyAhead(next) && next.version == b.version + (if MovesOn(b, Row(write)) then 1 else 0)
  {
  }

  lemma TableKeepsRow(b: Batch, write: TableWrite)
    ensures var next := WriteTable(b, write);
      && next.status == b.status && next.version == b.version && next.jobId == b.jobId && next.confirmations == b.confirmations
      && (NobodyAhead(b) ==> NobodyAhead(next))
  {
  }

  lemma MoveAndVersion(b: Batch, move: Move)
    requires NobodyAhead(b)
    ensures var next := Do(b, move);
      if Stale(b, move) then MovesOn(b, move) && next.version <= b.version
      else NobodyAhead(next) && next.version == b.version + (if MovesOn(b, move) then 1 else 0)
  {
    match move
    case Reads(_, _) =>
    case Looks(_, _) =>
    case Row(write) => RowAndVersion(b, write);
    case Table(write) => TableKeepsRow(b, write);
  }

  lemma {:induction false} RunAndVersion(b: Batch, moves: seq<Move>)
    requires NobodyAhead(b)
    ensures AlwaysGrows(b, moves) <==> NeverStale(b, moves)
    ensures NeverStale(b, moves) ==> DoAll(b, moves).version == b.version + TimesMovedOn(b, moves) && NobodyAhead(DoAll(b, moves))
    decreases |moves|
  {
    if moves != [] {
      MoveAndVersion(b, moves[0]);
      if !Stale(b, moves[0]) {
        RunAndVersion(Do(b, moves[0]), moves[1..]);
      }
    }
  }

  /** Along any run every revision and reopening raises the version exactly as long as no update of
      a reopening finds another version than the one it read; and then the version counts them. */
  lemma VersionsGrowExactly(moves: seq<Move>)
    ensures AlwaysGrows(NewBatch(), moves) <==> NeverStale(NewBatch(), moves)
    ensures NeverStale(NewBatch(), moves) ==> DoAll(NewBatch(), moves).version == 1 + TimesMovedOn(NewBatch(), moves)
  {
    RunAndVersion(NewBatch(), moves);
  }

  /** One reopening: a checked one always takes effect, and takes the batch to the preview after the
      version it read, which is a larger one exactly if the update still finds that version. */
  lemma ReopenMovesOn(b: Batch, r: nat, version: nat)
    requires NobodyAhead(b) && FlightOf(b, r) == Some(ReopenChecked(version))
    ensures var next := Do(b, Row(UpdateReopen(r)));
      && next.status == Preview && next.jobId == None && next.version == version + 1 && next.flights[r] == Ended(Reopened)
      && next.jobs == b.jobs && next.confirmations == b.confirmations
      && (next.version > b.version <==> b.version == version)
  {
    MoveAndVersion(b, Row(UpdateReopen(r)));
  }

  // ---------------------------------------------------------------- confirmations

  /** A preview shows a version nobody has confirmed. */
  ghost predicate Fresh(b: Batch) {
    b.status == Preview ==> b.version !in b.confirmations
  }

  /** A revision or reopening takes the batch to a version that was confirmed before. */
  predicate LandsOnConfirmed(b: Batch, move: Move) {
    match move
    case Row(UpdateReopen(r)) =>
      (match FlightOf(b, r) case Some(ReopenChecked(version)) => version + 1 in b.confirmations case _ => false)
    case Row(Revise(expected)) => b.version == expected && b.status == Preview && b.version + 1 in b.confirmations
    case _ => false
  }

  ghost predicate NeverLandsOnConfirmed(b: Batch, moves: seq<Move>)
    decreases |moves|
  {
    moves == [] || (!LandsOnConfirmed(b, moves[0]) && NeverLandsOnConfirmed(Do(b, moves[0]), moves[1..]))
  }

  ghost predicate AlwaysFresh(b: Batch, moves: seq<Move>)
    decreases |moves|
  {
    Fresh(b) && (moves == [] || AlwaysFresh(Do(b, moves[0]), moves[1..]))
  }

  lemma MoveAndFresh(b: Batch, move: Move)
    requires Fresh(b)
    ensures Fresh(Do(b, move)) <==> !LandsOnConfirmed(b, move)
    ensures Distinct(b.confirmations) ==> Distinct(Do(b, move).confirmations)
  {
    match move
    case Table(write) => TableKeepsRow(b, write);
    case _ =>
  }

  lemma {:induction false} RunAndFresh(b: Batch, moves: seq<Move>)
    requires Fresh(b) && Distinct(b.confirmations)
    ensures AlwaysFresh(b, moves) <==> NeverLandsOnConfirmed(b, moves)
    ensures AlwaysFresh(b, moves) ==> Distinct(DoAll(b, moves).confirmations)
    decreases |moves|
  {
    if moves != [] {
      MoveAndFresh(b, moves[0]);
      if !LandsOnConfirmed(b, moves[0]) {
        RunAndFresh(Do(b, moves[0]), moves[1..]);
      }
    }
  }

  /** Along any run a preview shows an unconfirmed version exactly as long as no revision and no
      reopening lands on a confirmed one; and until then no version is confirmed twice. */
  lemma PreviewsAreFreshExactly(moves: seq<Move>)
    ensures AlwaysFresh(NewBatch(), moves) <==> NeverLandsOnConfirmed(NewBatch(), moves)
    ensures AlwaysFresh(NewBatch(), moves) ==> Distinct(DoAll(NewBatch(), moves).confirmations)
  {
    RunAndFresh(NewBatch(), moves);
  }

  /** No confirmation is above the version, and none of a preview's version. */
  ghost predicate NoneAhead(b: Batch) {
    && NobodyAhead(b)
    && (forall v | v in b.confirmations :: v <= b.version && (b.status == Preview ==> v < b.version))
  }

  lemma MoveKeepsNoneAhead(b: Batch, move: Move)
    requires NoneAhead(b) && !Stale(b, move)
    ensures NoneAhead(Do(b, move)) && !LandsOnConfirmed(b, move)
  {
    MoveAndVersion(b, move);
    if move.Table? {
      TableKeepsRow(b, move.table);
    }
  }

  lemma {:induction false} FreshUnlessStale(b: Batch, moves: seq<Move>)
    requires NoneAhead(b) && NeverStale(b, moves)
    ensures NeverLandsOnConfirmed(b, moves) && NoneAhead(DoAll(b, moves))
    decreases |moves|
  {
    if moves != [] {
      MoveKeepsNoneAhead(b, moves[0]);
      FreshUnlessStale(Do(b, moves[0]), moves[1..]);
    }
  }

  /** In every interleaving of requests and workers, crashes and reopenings included: as long as no
      update of a reopening finds another version than it read, each version is confirmed at most
      once, none before the batch has reached it, and no preview shows a confirmed one. */
  lemma ConfirmedOnce(moves: seq<Move>)
    requires NeverStale(NewBatch(), moves)
    ensures var b := DoAll(NewBatch(), moves);
      && Distinct(b.confirmations) && (forall v | v in b.confirmations :: v <= b.version)
      && AlwaysFresh(NewBatch(), moves)
  {
    FreshUnlessStale(NewBatch(), moves);
    PreviewsAreFreshExactly(moves);
  }

  // ---------------------------------------------------------------- what was confirmed

  /** A confirmation takes effect exactly for a request that loaded a preview, if the preview is
      unchanged and the batch is still the preview of the loaded version; else it is a conflict. */
  lemma ConfirmOutcome(b: Batch, r: nat, version: nat, previewUnchanged: bool)
    requires FlightOf(b, r) == Some(Loaded(version, true))
    ensures var next := Do(b, Row(Confirm(r, previewUnchanged)));
      if previewUnchanged && b.status == Preview && b.version == version
      then next == b.(status := Queued, confirmations := b.confirmations + [version], flights := b.flights[r := Confirmed])
      else next == b.(flights := b.flights[r := Ended(Conflict)])
  {
  }

  /** Request r loaded version v as a preview, by the i-th move. */
  ghost predicate LoadedBy(moves: seq<Move>, i: int, r: nat, v: nat) {
    0 <= i < |moves| && moves[i] == Reads(r, Load(v)) &&
    var b := DoAll(NewBatch(), moves[..i]); b.status == Preview && b.version == v
  }

  /** Some request that had loaded version v as a preview confirmed it, unchanged, by the j-th move,
      when the batch was a preview of v again or still. */
  ghost predicate ConfirmedBy(moves: seq<Move>, j: int, v: nat) {
    0 <= j < |moves| && moves[j].Row? && moves[j].row.Confirm? && moves[j].row.previewUnchanged
    && (var b := DoAll(NewBatch(), moves[..j]); b.status == Preview && b.version == v)
    && exists i :: LoadedBy(moves[..j], i, moves[j].row.request, v)
  }

  lemma LoadedByStays(moves: seq<Move>, move: Move, i: int, r: nat, v: nat)
    requires LoadedBy(moves, i, r, v)
    ensures LoadedBy(moves + [move], i, r, v)
  {
    assert (moves + [move])[..i] == moves[..i];
  }

  lemma ConfirmedByStays(moves: seq<Move>, move: Move, j: int, v: nat)
    requires ConfirmedBy(moves, j, v)
    ensures ConfirmedBy(moves + [move], j, v)
  {
    assert (moves + [move])[..j] == moves[..j];
  }

  ghost predicate Explained(moves: seq<Move>, b: Batch) {
    && (forall v | v in b.confirmations :: exists j :: ConfirmedBy(moves, j, v))
    && (forall r, v | FlightOf(b, r) == Some(Loaded(v, true)) :: exists i :: LoadedBy(moves, i, r, v))
  }

  /** A move adds a confirmation or a loaded preview only in these two ways. */
  lemma MoveAdds(b: Batch, move: Move)
    ensures var next := Do(b, move);
      && (forall v | v in next.confirmations && v !in b.confirmations ::
            && move.Row? && move.row.Confirm? && move.row.previewUnchanged && b.status == Preview && b.version == v
            && FlightOf(b, move.row.request) == Some(Loaded(v, true)))
      && (forall r, v | FlightOf(next, r) == Some(Loaded(v, true)) && FlightOf(b, r) != FlightOf(next, r) ::
            move == Reads(r, Load(v)) && b.status == Preview && b.version == v)
  {
    match move
    case Table(write) => TableKeepsRow(b, write);
    case _ =>
  }

  lemma MoveIsExplained(moves: seq<Move>, move: Move)
    requires Explained(moves, DoAll(NewBatch(), moves))
    ensures Explained(moves + [move], Do(DoAll(NewBatch(), moves), move))
  {
    var b, all, n := DoAll(NewBatch(), moves), moves + [move], |moves|;
    var next := Do(b, move);
    MoveAdds(b, move);
    assert all[..n] == moves;
    forall v | v in next.confirmations ensures exists j :: ConfirmedBy(all, j, v) {
      if v in b.confirmations {
        var j :| ConfirmedBy(moves, j, v);
        ConfirmedByStays(moves, move, j, v);
      } else {
        assert FlightOf(b, move.row.request) == Some(Loaded(v, true));
        assert ConfirmedBy(all, n, v);
      }
    }
    forall r, v | FlightOf(next, r) == Some(Loaded(v, true)) ensures exists i :: LoadedBy(all, i, r, v) {
      if FlightOf(b, r) == FlightOf(next, r) {
        var i :| LoadedBy(moves, i, r, v);
        LoadedByStays(moves, move, i, r, v);
      } else {
        assert LoadedBy(all, n, r, v);
      }
    }
  }

  /** In every interleaving each confirmed version was loaded by its request as the preview it then
      was, and confirmed unchanged while it was a preview. */
  lemma {:induction false} ConfirmedAsLoaded(moves: seq<Move>)
    ensures Explained(moves, DoAll(NewBatch(), moves))
    decreases |moves|
  {
    if moves != [] {
      var init, last := moves[..|moves| - 1], moves[|moves| - 1];
      assert moves == init + [last];
      ConfirmedAsLoaded(init);
      MoveIsExplained(init, last);
      DoAllAppend(NewBatch(), init, [last]);
      assert [last][1..] == [];
    }
  }
}
