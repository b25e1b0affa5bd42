/**
 The single durable file of the sealed runner, holding the intent table, the lifecycle word and the
 one-run journal, and the outside world. Any call may die with its process, before or after its
 one transaction or request: the caller then sees `Crashed` and nothing more is done.
 */
module SealedStore {
  import opened Wrappers
  import opened VenueEvidence
  import opened SealedVenue

  datatype Phase =
    | Flat | EntryPrepared | EntryAmbiguous | CancelPrepared | CancelAmbiguous | ClosePrepared | CloseAmbiguous
    | Exposed | FlatPendingExpiry | Complete | Halted(code: string)

  datatype JournalState = Started | Completed | Blocked
  datatype Journal = Journal(runId: string, state: JournalState)

  function Find(rows: seq<Row>, id: string): (at: Option<nat>)
    ensures at.Some? ==> at.value < |rows| && rows[at.value].id == id
    ensures at.None? ==> forall row <- rows :: row.id != id
  {
    if rows == [] then None
    else if rows[0].id == id then Some(0)
    else match Find(rows[1..], id)
      case None => None
      case Some(at) => Some(at + 1)
  }

  predicate IdentityFree(rows: seq<Row>, row: Row) {
    forall r <- rows ::
      && r.id != row.id && r.nonce != row.nonce && r.externalId != row.externalId
      && r.settlementIdentity != row.settlementIdentity
  }

  class StoreFile {
    var rows: seq<Row>
    var phase: Phase
    var journal: Option<Journal>

    constructor ()
      ensures rows == [] && phase == Flat && journal == None
    {
      rows, phase, journal := [], Flat, None;
    }

    /** The row as it is after a transaction on the row with this id, all other rows untouched. */
    ghost predicate Rewritten(before: seq<Row>, id: string, after: Row)
      reads this
    {
      Find(before, id).Some? && rows == before[Find(before, id).value := after]
    }

    method Begin(runId: string) returns (f: Fate<()>)
      modifies this`journal
      ensures journal == old(journal) || (old(journal).None? && journal == Some(Journal(runId, Started)))
      ensures f.Done? ==> old(journal).None? && journal == Some(Journal(runId, Started))
      ensures f.Raised? ==> old(journal).Some? && journal == old(journal)
    {
      if journal.Some? {
        return Fate.Raised(if journal.value.state.Started? then "RUNTIME_RESTART_REQUIRED" else "RUNTIME_ALREADY_TERMINAL");
      }
      if * { return Crashed; }
      journal := Some(Journal(runId, Started));
      if * { return Crashed; }
      return Done(());
    }

    method Terminalize(runId: string, state: JournalState) returns (f: Fate<()>)
      modifies this`journal
      ensures journal == old(journal) || (old(journal) == Some(Journal(runId, Started)) && journal == Some(Journal(runId, state)))
      ensures f.Done? ==> old(journal) == Some(Journal(runId, Started)) && journal == Some(Journal(runId, state))
      ensures f.Raised? ==> journal == old(journal) != Some(Journal(runId, Started))
    {
      if journal != Some(Journal(runId, Started)) { return Fate.Raised("RUNTIME_TERMINAL_CONFLICT"); }
      if * { return Crashed; }
      journal := Some(Journal(runId, state));
      if * { return Crashed; }
      return Done(());
    }

    method SetPhase(next: Phase) returns (f: Fate<()>)
      modifies this`phase
      ensures phase == old(phase) || phase == next
      ensures !f.Raised? && (f.Done? ==> phase == next)
    {
      if * { return Crashed; }
      phase := next;
      if * { return Crashed; }
      return Done(());
    }

    /** Insert one prepared row under the expected phase; every identity column is unique. */
    method Prepare(draft: Row, expected: Phase, next: Phase) returns (f: Fate<Row>)
      requires draft.state.Prepared? && draft.dispatchCount == 0
      modifies this`rows, this`phase
      ensures rows == old(rows) || (rows == old(rows) + [draft] && IdentityFree(old(rows), draft))
      ensures if rows == old(rows) then phase == old(phase) else old(phase) == expected && phase == next
      ensures f.Done? ==> f.value == draft && rows == old(rows) + [draft]
      ensures f.Raised? ==> rows == old(rows)
    {
      if phase != expected { return Fate.Raised("INTENT_PREPARATION_REJECTED"); }
      if !IdentityFree(rows, draft) { return Fate.Raised("DURABLE_IDENTITY_REUSE"); }
      if * { return Crashed; }
      rows, phase := rows + [draft], next;
      if * { return Crashed; }
      return Done(draft);
    }

    method Claim(id: string, expected: Phase, next: Phase) returns (f: Fate<Row>)
      modifies this`rows, this`phase
      ensures rows == old(rows) || (Find(old(rows), id).Some? && var row := old(rows)[Find(old(rows), id).value];
        row.state.Prepared? && Rewritten(old(rows), id, row.(state := Claimed, dispatchCount := row.dispatchCount + 1)))
      ensures f.Done? ==> Find(old(rows), id).Some? && var row := old(rows)[Find(old(rows), id).value];
        && row.state.Prepared? && f.value == row.(state := Claimed, dispatchCount := row.dispatchCount + 1)
        && Rewritten(old(rows), id, f.value)
      ensures if rows == old(rows) then phase == old(phase) else old(phase) == expected && phase == next
      ensures f.Raised? ==> rows == old(rows)
    {
      if phase != expected { return Fate.Raised("LIFECYCLE_CONFLICT"); }
      var at := Find(rows, id);
      if at.None? || !rows[at.value].state.Prepared? { return Fate.Raised("INTENT_NOT_PREPARED"); }
      var row := rows[at.value].(state := Claimed, dispatchCount := rows[at.value].dispatchCount + 1);
      if * { return Crashed; }
      rows, phase := rows[at.value := row], next;
      if * { return Crashed; }
      return Done(row);
    }

    /** Bind the exact signed payload and its digest to a claimed intent, once. */
    method BindSigned(id: string, payload: SignedPayload, identity: string) returns (f: Fate<Row>)
      modifies this`rows
      ensures rows == old(rows) || (Find(old(rows), id).Some? && var row := old(rows)[Find(old(rows), id).value];
        && row.state.Claimed?
        && (forall r <- old(rows) :: r.id != id ==> r.settlementIdentity != identity)
        && Rewritten(old(rows), id, row.(payload := Some(payload), payloadDigest := Some(DigestOf(payload)), settlementIdentity := identity)))
      ensures f.Done? ==> Find(old(rows), id).Some? && var row := old(rows)[Find(old(rows), id).value];
        && row.state.Claimed? && row.payload.None?
        && f.value == row.(payload := Some(payload), payloadDigest := Some(DigestOf(payload)), settlementIdentity := identity)
        && Rewritten(old(rows), id, f.value)
    {
      var at := Find(rows, id);
      if at.None? { return Fate.Raised("INTENT_NOT_FOUND"); }
      if !rows[at.value].state.Claimed? || rows[at.value].payload.Some? { return Fate.Raised("SIGNED_PAYLOAD_STATE_INVALID"); }
      if exists r <- rows :: r.id != id && r.settlementIdentity == identity { return Fate.Raised("SETTLEMENT_IDENTITY_REUSE"); }
      var row := rows[at.value].(payload := Some(payload), payloadDigest := Some(DigestOf(payload)), settlementIdentity := identity);
      if * { return Crashed; }
      rows := rows[at.value := row];
      if * { return Crashed; }
      return Done(row);
    }

    method MarkAccepted(id: string, orderId: string, externalId: string) returns (f: Fate<Row>)
      modifies this`rows
      ensures rows == old(rows) || (Find(old(rows), id).Some? && var row := old(rows)[Find(old(rows), id).value];
        && (row.state.Claimed? || row.state.Ambiguous?) && row.venueOrderId.None?
        && Rewritten(old(rows), id, row.(state := Accepted, venueOrderId := Some(orderId))))
      ensures f.Done? ==> Find(old(rows), id).Some? && var row := old(rows)[Find(old(rows), id).value];
        && (row.state.Claimed? || row.state.Ambiguous?) && row.venueOrderId.None? && externalId == row.externalId
        && f.value == row.(state := Accepted, venueOrderId := Some(orderId)) && Rewritten(old(rows), id, f.value)
    {
      var at := Find(rows, id);
      if at.None? { return Fate.Raised("INTENT_NOT_FOUND"); }
      var row := rows[at.value];
      if !(row.state.Claimed? || row.state.Ambiguous?) || row.payload.None? { return Fate.Raised("WRITE_RESPONSE_STATE_INVALID"); }
      if externalId != row.externalId { return Fate.Raised("WRITE_RESPONSE_EXTERNAL_MISMATCH"); }
      if row.venueOrderId.Some? { return Fate.Raised("WRITE_RESPONSE_STATE_INVALID"); }
      row := row.(state := Accepted, venueOrderId := Some(orderId));
      if * { return Crashed; }
      rows := rows[at.value := row];
      if * { return Crashed; }
      return Done(row);
    }

    /** Set the state of one row, and the phase when one is given, in one transaction. */
    method Mark(id: string, state: RowState, next: Option<Phase>) returns (f: Fate<Row>)
      modifies this`rows, this`phase
      ensures rows == old(rows) || (Find(old(rows), id).Some? && var row := old(rows)[Find(old(rows), id).value];
        Rewritten(old(rows), id, row.(state := state)))
      ensures f.Done? ==> Find(old(rows), id).Some? && var row := old(rows)[Find(old(rows), id).value];
        f.value == row.(state := state) && Rewritten(old(rows), id, f.value)
      ensures phase == old(phase) || next == Some(phase)
      ensures f.Done? ==> phase == if next.Some? then next.value else old(phase)
      ensures f.Raised? ==> rows == old(rows) && phase == old(phase)
    {
      var at := Find(rows, id);
      if at.None? { return Fate.Raised("INTENT_NOT_FOUND"); }
      var row := rows[at.value].(state := state);
      if * { return Crashed; }
      rows := rows[at.value := row];
      phase := if next.Some? then next.value else phase;
      if * { return Crashed; }
      return Done(row);
    }
  }

  // ----- The outside world -----

  /** A request that reached the venue, with the durable row as it stood at that instant. */
  datatype Send = Send(held: Row, payload: Option<SignedPayload>, orderId: Option<string>)

  datatype Reply =
    | Receipt(accepted: bool, orderId: Option<string>, externalId: Option<string>)
    | AmbiguousReply(code: string) | RejectedReply(code: string) | FailedReply(code: string)
    | UnexpectedReply(code: string)

  datatype Reading = Reading(timeMs: int, seenBefore: nat)

  /** Clock, reads, signer and writes: every answer is arbitrary, and only what was asked is recorded. */
  class VenueIO {
    ghost var sent: seq<Send>
    ghost var seen: seq<Observation>
    ghost var readings: seq<Reading>

    constructor ()
      ensures sent == [] && seen == [] && readings == []
    {
      sent, seen, readings := [], [], [];
    }

    method Now() returns (timeMs: int)
      modifies this`readings
      ensures readings == old(readings) + [Reading(timeMs, |seen|)]
    {
      timeMs := *;
      readings := readings + [Reading(timeMs, |seen|)];
    }

    method Observe() returns (f: Fate<Observation>)
      modifies this`seen
      ensures f.Done? ==> seen == old(seen) + [f.value]
      ensures !f.Done? ==> seen == old(seen)
    {
      if * { return Crashed; }
      if * {
        var code: string := *;
        return Fate.Raised(code);
      }
      var obs: Observation := *;
      seen := seen + [obs];
      return Done(obs);
    }

    method Sign() returns (f: Fate<(SignedPayload, string)>)
    {
      if * { return Crashed; }
      if * {
        var code: string := *;
        return Fate.Raised(code);
      }
      var signed: (SignedPayload, string) := *;
      return Done(signed);
    }

    /** At most one request leaves; whether it did is not known from an ambiguous reply or a crash. */
    method Write(ghost file: StoreFile, id: string, payload: Option<SignedPayload>, orderId: Option<string>) returns (f: Fate<Reply>)
      requires Find(file.rows, id).Some?
      modifies this`sent
      ensures sent == old(sent) || sent == old(sent) + [Send(file.rows[Find(file.rows, id).value], payload, orderId)]
      ensures !f.Raised?
    {
      if * { return Crashed; }
      if * {
        sent := sent + [Send(file.rows[Find(file.rows, id).value], payload, orderId)];
      }
      if * { return Crashed; }
      var reply: Reply := *;
      return Done(reply);
    }
  }
}
