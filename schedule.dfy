/**
 * The double-booking rule. Every appointment occupies the half-open slot
 * [fechaHora, fechaHora + 2 h); two slots of one dentist conflict only when
 * they strictly overlap, so slots that merely touch are allowed.
 */
module Schedule {
  import opened Wrappers
  import opened Types
  import opened Records

  /** Two hours in milliseconds: the fixed length of every appointment. */
  const SlotMs: int := 2 * 60 * 60 * 1000

  /** The new slot starts before the existing one ends and ends after it starts. */
  predicate Overlaps(newStart: int, existingStart: int) {
    newStart < existingStart + SlotMs && newStart + SlotMs > existingStart
  }

  /** Slots overlap exactly when their starts are less than two hours apart. */
  lemma OverlapsIffCloserThanSlot(a: int, b: int)
    ensures Overlaps(a, b) <==> (a - b < 7_200_000 && b - a < 7_200_000)
    ensures Overlaps(a, b) <==> Overlaps(b, a)
    ensures !Overlaps(a, a + SlotMs) && !Overlaps(a + SlotMs, a)
  {
  }

  /** The scan looks at `c`: same dentist, and not the appointment being edited. */
  predicate Considered(c: Cita, dentistaId: string, exclude: Option<string>) {
    c.dentistaId == dentistaId && (exclude.None? || c.id != exclude.value)
  }

  /** `c` is a stored appointment that rules out a slot starting at `start`. */
  predicate Blocks(c: Cita, dentistaId: string, start: int, exclude: Option<string>) {
    Considered(c, dentistaId, exclude) && Overlaps(start, c.fechaHora)
  }

  predicate HasConflict(citas: seq<Cita>, dentistaId: string, start: int, exclude: Option<string>) {
    exists i :: 0 <= i < |citas| && Blocks(citas[i], dentistaId, start, exclude)
  }

  /**
   * The index of the first appointment at or after `from`, in stored order,
   * that blocks the slot.
   */
  function FirstBlocking(citas: seq<Cita>, dentistaId: string, start: int, exclude: Option<string>, from: nat)
    : (k: Option<nat>)
    requires from <= |citas|
    ensures k.None? <==> forall j :: from <= j < |citas| ==> !Blocks(citas[j], dentistaId, start, exclude)
    ensures k.Some? ==> from <= k.value < |citas| && Blocks(citas[k.value], dentistaId, start, exclude)
    ensures k.Some? ==> forall j :: from <= j < k.value ==> !Blocks(citas[j], dentistaId, start, exclude)
    decreases |citas| - from
  {
    if from == |citas| then None
    else if Blocks(citas[from], dentistaId, start, exclude) then Some(from)
    else FirstBlocking(citas, dentistaId, start, exclude, from + 1)
  }

  /**
   * The answer of the availability check: valid when nothing blocks the slot,
   * and otherwise a conflict carrying the slot of the FIRST blocking
   * appointment in stored order.
   */
  function AvailabilityVerdict(citas: seq<Cita>, dentistaId: string, start: int, exclude: Option<string>)
    : (r: ValidationResult)
    ensures r.isValid <==> !HasConflict(citas, dentistaId, start, exclude)
    ensures r.isValid ==> r == Accepted
    ensures !r.isValid ==> r.error.Some? && r.error.value.ScheduleConflict? &&
                           r.error.value.end == r.error.value.start + SlotMs &&
                           Overlaps(start, r.error.value.start)
    ensures !r.isValid ==> var k := FirstBlocking(citas, dentistaId, start, exclude, 0);
                           k.Some? && r == Rejected(ScheduleConflict(citas[k.value].fechaHora, citas[k.value].fechaHora + SlotMs))
  {
    match FirstBlocking(citas, dentistaId, start, exclude, 0)
    case None => Accepted
    case Some(k) => Rejected(ScheduleConflict(citas[k].fechaHora, citas[k].fechaHora + SlotMs))
  }

  /** No two appointments of one dentist have overlapping slots. */
  predicate NoDoubleBooking(citas: seq<Cita>) {
    forall i, j ::
      (0 <= i < |citas| && 0 <= j < |citas| && i != j && citas[i].dentistaId == citas[j].dentistaId) ==>
      !Overlaps(citas[i].fechaHora, citas[j].fechaHora)
  }

  /** The invariant of the stored appointments: minted, unique ids and no double booking. */
  predicate ScheduleConsistent(citas: seq<Cita>) {
    KeysNonEmpty(citas, CitaKey) && UniqueKeys(citas, CitaKey) && NoDoubleBooking(citas)
  }

  /** The write that a successful save commits: append under `newId`, or replace by id. */
  function CommitCita(citas: seq<Cita>, cita: Cita, newId: string): seq<Cita> {
    Upsert(citas, CitaKey, cita, cita.(id := newId))
  }

  /**
   * A save that passed the availability check (excluding its own id) keeps the
   * stored appointments consistent, provided a new appointment gets a fresh id.
   */
  lemma CommitKeepsScheduleConsistent(citas: seq<Cita>, cita: Cita, newId: string)
    requires ScheduleConsistent(citas)
    requires cita.id == "" ==> newId != "" && !HasKey(citas, CitaKey, newId)
    requires !HasConflict(citas, cita.dentistaId, cita.fechaHora, Some(cita.id))
    ensures ScheduleConsistent(CommitCita(citas, cita, newId))
  {
    var r := CommitCita(citas, cita, newId);
    UpsertKeepsKeys(citas, CitaKey, cita, cita.(id := newId));
    forall i, j | 0 <= i < |r| && 0 <= j < |r| && i != j && r[i].dentistaId == r[j].dentistaId
      ensures !Overlaps(r[i].fechaHora, r[j].fechaHora)
    {
      NoOverlapAfterCommit(citas, cita, newId, i, j);
    }
  }

  lemma NoOverlapAfterCommit(citas: seq<Cita>, cita: Cita, newId: string, i: int, j: int)
    requires ScheduleConsistent(citas)
    requires !HasConflict(citas, cita.dentistaId, cita.fechaHora, Some(cita.id))
    requires var r := CommitCita(citas, cita, newId);
      0 <= i < |r| && 0 <= j < |r| && i != j && r[i].dentistaId == r[j].dentistaId
    ensures var r := CommitCita(citas, cita, newId);
      !Overlaps(r[i].fechaHora, r[j].fechaHora)
  {
    var r := CommitCita(citas, cita, newId);
    var n := |citas|;
    if cita.id == "" {
      if i == n {
        assert r[j] == citas[j] && citas[j].id != "";
        assert !Blocks(citas[j], cita.dentistaId, cita.fechaHora, Some(cita.id));
      } else if j == n {
        assert r[i] == citas[i] && citas[i].id != "";
        assert !Blocks(citas[i], cita.dentistaId, cita.fechaHora, Some(cita.id));
      } else {
        assert r[i] == citas[i] && r[j] == citas[j];
      }
    } else {
      if citas[i].id == cita.id {
        assert citas[j].id != cita.id;
        assert r[i] == cita && r[j] == citas[j];
        assert !Blocks(citas[j], cita.dentistaId, cita.fechaHora, Some(cita.id));
      } else if citas[j].id == cita.id {
        assert r[j] == cita && r[i] == citas[i];
        assert !Blocks(citas[i], cita.dentistaId, cita.fechaHora, Some(cita.id));
      } else {
        assert r[i] == citas[i] && r[j] == citas[j];
      }
    }
  }

  /**
   * Rescheduling: with unique ids, excluding an appointment's own id from the
   * scan means its old slot never blocks its new one; only the others count.
   */
  lemma RescheduleIgnoresOwnSlot(citas: seq<Cita>, k: int, start: int)
    requires UniqueKeys(citas, CitaKey)
    requires 0 <= k < |citas|
    ensures HasConflict(citas, citas[k].dentistaId, start, Some(citas[k].id)) <==>
            exists j :: 0 <= j < |citas| && j != k && citas[j].dentistaId == citas[k].dentistaId &&
                        Overlaps(start, citas[j].fechaHora)
  {
    var d, e := citas[k].dentistaId, Some(citas[k].id);
    if HasConflict(citas, d, start, e) {
      var j :| 0 <= j < |citas| && Blocks(citas[j], d, start, e);
      assert j != k;
    }
    if exists j :: 0 <= j < |citas| && j != k && citas[j].dentistaId == d && Overlaps(start, citas[j].fechaHora) {
      var j :| 0 <= j < |citas| && j != k && citas[j].dentistaId == d && Overlaps(start, citas[j].fechaHora);
      assert CitaKey(citas[j]) != CitaKey(citas[k]) by {
        if j < k { assert CitaKey(citas[j]) != CitaKey(citas[k]); } else { assert CitaKey(citas[k]) != CitaKey(citas[j]); }
      }
      assert Blocks(citas[j], d, start, e);
    }
  }

  /** Some appointment of the dentist `id` starts strictly after `now`. */
  predicate HasFutureCitaOfDentista(citas: seq<Cita>, id: string, now: int) {
    exists i :: 0 <= i < |citas| && citas[i].dentistaId == id && citas[i].fechaHora > now
  }

  /** Some appointment of the patient `id` starts strictly after `now`. */
  predicate HasFutureCitaOfPaciente(citas: seq<Cita>, id: string, now: int) {
    exists i :: 0 <= i < |citas| && citas[i].pacienteId == id && citas[i].fechaHora > now
  }

  /** Removing appointments by id keeps the stored appointments consistent. */
  lemma RemoveKeepsScheduleConsistent(citas: seq<Cita>, id: string)
    requires ScheduleConsistent(citas)
    ensures ScheduleConsistent(RemoveKey(citas, CitaKey, id))
  {
    var r := RemoveKey(citas, CitaKey, id);
    RemoveKeyKeepsKeys(citas, CitaKey, id);
    forall i, j | 0 <= i < |r| && 0 <= j < |r| && i != j && r[i].dentistaId == r[j].dentistaId
      ensures !Overlaps(r[i].fechaHora, r[j].fechaHora)
    {
      assert r[i] in citas && r[j] in citas;
      var i' :| 0 <= i' < |citas| && citas[i'] == r[i];
      var j' :| 0 <= j' < |citas| && citas[j'] == r[j];
      assert CitaKey(r[i]) != CitaKey(r[j]) by {
        if i < j { assert CitaKey(r[i]) != CitaKey(r[j]); } else { assert CitaKey(r[j]) != CitaKey(r[i]); }
      }
      assert i' != j';
    }
  }
}
