/**
 * The clinic registry: the one object that owns the dentists, the patients and
 * the appointments (citas), and the only code that changes them.
 */
module Clinic {
  import opened Wrappers
  import opened Types
  import opened Records
  import opened Sorting
  import opened Schedule

  /** The fixture a first start is seeded with. */
  const MockDentistas: seq<Dentista> := [
    Dentista("1", "Dr. Juan Pérez", "Odontología General", "juan.perez@clinica.com"),
    Dentista("2", "Dra. Ana López", "Ortodoncia", "ana.lopez@clinica.com"),
    Dentista("3", "Dr. Roberto Gómez", "Cirugía Maxilofacial", "roberto.gomez@clinica.com")
  ]

  const MockPacientes: seq<Paciente> := [
    Paciente("1", "Carlos García", "1985-04-12", "555-1234", Some("carlos@mail.com"), true),
    Paciente("2", "María Rodríguez", "1992-08-23", "555-5678", None, false)
  ]

  /** The seeded appointment is at ten o'clock on the day of the first start. */
  function MockCitas(todayAtTen: int): seq<Cita> {
    [Cita("1", todayAtTen, "Limpieza anual", "1", "1")]
  }

  class ClinicService {
    var dentistas: seq<Dentista>
    var pacientes: seq<Paciente>
    var citas: seq<Cita>

    /** Ids are minted and unique in every collection, and no dentist is double-booked. */
    ghost predicate Valid()
      reads this
    {
      && KeysNonEmpty(dentistas, DentistaKey) && UniqueKeys(dentistas, DentistaKey)
      && KeysNonEmpty(pacientes, PacienteKey) && UniqueKeys(pacientes, PacienteKey)
      && ScheduleConsistent(citas)
    }

    /**
     * Each collection is what the backing store holds under its key, or the
     * fixture when nothing is stored there.
     */
    constructor(storedDentistas: Option<seq<Dentista>>, storedPacientes: Option<seq<Paciente>>,
                storedCitas: Option<seq<Cita>>, todayAtTen: int)
      ensures dentistas == storedDentistas.GetOr(MockDentistas)
      ensures pacientes == storedPacientes.GetOr(MockPacientes)
      ensures citas == storedCitas.GetOr(MockCitas(todayAtTen))
      ensures storedDentistas.None? && storedPacientes.None? && storedCitas.None? ==> Valid()
    {
      dentistas := storedDentistas.GetOr(MockDentistas);
      pacientes := storedPacientes.GetOr(MockPacientes);
      citas := storedCitas.GetOr(MockCitas(todayAtTen));
    }

    // --- Dentistas ---

    /** A snapshot of the dentists sorted by name; nothing stored changes. */
    method GetDentistas(nameLe: (string, string) -> bool) returns (r: seq<Dentista>)
      requires TotalPreorder(nameLe)
      ensures SortedBy(r, DentistaName, nameLe)
      ensures multiset(r) == multiset(dentistas)
      ensures forall k :: Tied(r, DentistaName, nameLe, k) == Tied(dentistas, DentistaName, nameLe, k)
    {
      r := SortBy(dentistas, DentistaName, nameLe);
      forall k { SortByStable(dentistas, DentistaName, nameLe, k); }
    }

    /**
     * An empty id gets the fresh `newId` and the dentist is appended; any other
     * id replaces the dentists carrying it. No field is checked.
     */
    method SaveDentista(dentista: Dentista, newId: string) returns (saved: Dentista)
      requires dentista.id == "" ==> newId != "" && !HasKey(dentistas, DentistaKey, newId)
      modifies this
      ensures saved == if dentista.id == "" then dentista.(id := newId) else dentista
      ensures dentistas == Upsert(old(dentistas), DentistaKey, dentista, saved)
      ensures pacientes == old(pacientes) && citas == old(citas)
      ensures old(Valid()) ==> Valid()
    {
      if UniqueKeys(dentistas, DentistaKey) && KeysNonEmpty(dentistas, DentistaKey) {
        UpsertKeepsKeys(dentistas, DentistaKey, dentista, if dentista.id == "" then dentista.(id := newId) else dentista);
      }
      if dentista.id == "" {
        saved := dentista.(id := newId);
        dentistas := dentistas + [saved];
      } else {
        saved := dentista;
        dentistas := Replace(dentistas, DentistaKey, dentista);
      }
    }

    /**
     * Refused, with nothing changed, exactly when an appointment of this dentist
     * starts after `now`; otherwise every dentist with this id is removed and the
     * appointments are left as they are (no cascade).
     */
    method DeleteDentista(id: string, now: int) returns (r: ValidationResult)
      modifies this
      ensures r.isValid <==> !HasFutureCitaOfDentista(old(citas), id, now)
      ensures !r.isValid ==> r == Rejected(DentistaHasFutureCitas) && dentistas == old(dentistas)
      ensures r.isValid ==> r == Accepted && dentistas == RemoveKey(old(dentistas), DentistaKey, id)
      ensures pacientes == old(pacientes) && citas == old(citas)
      ensures old(Valid()) ==> Valid()
    {
      if HasFutureCitaOfDentista(citas, id, now) {
        return Rejected(DentistaHasFutureCitas);
      }
      if UniqueKeys(dentistas, DentistaKey) && KeysNonEmpty(dentistas, DentistaKey) {
        RemoveKeyKeepsKeys(dentistas, DentistaKey, id);
      }
      dentistas := RemoveKey(dentistas, DentistaKey, id);
      return Accepted;
    }

    // --- Pacientes ---

    /** A snapshot of the patients sorted by name; nothing stored changes. */
    method GetPacientes(nameLe: (string, string) -> bool) returns (r: seq<Paciente>)
      requires TotalPreorder(nameLe)
      ensures SortedBy(r, PacienteName, nameLe)
      ensures multiset(r) == multiset(pacientes)
      ensures forall k :: Tied(r, PacienteName, nameLe, k) == Tied(pacientes, PacienteName, nameLe, k)
    {
      r := SortBy(pacientes, PacienteName, nameLe);
      forall k { SortByStable(pacientes, PacienteName, nameLe, k); }
    }

    /** As SaveDentista, for patients. */
    method SavePaciente(paciente: Paciente, newId: string) returns (saved: Paciente)
      requires paciente.id == "" ==> newId != "" && !HasKey(pacientes, PacienteKey, newId)
      modifies this
      ensures saved == if paciente.id == "" then paciente.(id := newId) else paciente
      ensures pacientes == Upsert(old(pacientes), PacienteKey, paciente, saved)
      ensures dentistas == old(dentistas) && citas == old(citas)
      ensures old(Valid()) ==> Valid()
    {
      if UniqueKeys(pacientes, PacienteKey) && KeysNonEmpty(pacientes, PacienteKey) {
        UpsertKeepsKeys(pacientes, PacienteKey, paciente, if paciente.id == "" then paciente.(id := newId) else paciente);
      }
      if paciente.id == "" {
        saved := paciente.(id := newId);
        pacientes := pacientes + [saved];
      } else {
        saved := paciente;
        pacientes := Replace(pacientes, PacienteKey, paciente);
      }
    }

    /** As DeleteDentista, for patients. */
    method DeletePaciente(id: string, now: int) returns (r: ValidationResult)
      modifies this
      ensures r.isValid <==> !HasFutureCitaOfPaciente(old(citas), id, now)
      ensures !r.isValid ==> r == Rejected(PacienteHasFutureCitas) && pacientes == old(pacientes)
      ensures r.isValid ==> r == Accepted && pacientes == RemoveKey(old(pacientes), PacienteKey, id)
      ensures dentistas == old(dentistas) && citas == old(citas)
      ensures old(Valid()) ==> Valid()
    {
      if HasFutureCitaOfPaciente(citas, id, now) {
        return Rejected(PacienteHasFutureCitas);
      }
      if UniqueKeys(pacientes, PacienteKey) && KeysNonEmpty(pacientes, PacienteKey) {
        RemoveKeyKeepsKeys(pacientes, PacienteKey, id);
      }
      pacientes := RemoveKey(pacientes, PacienteKey, id);
      return Accepted;
    }

    // --- Citas ---

    /** A snapshot of all appointments in order of start; nothing stored changes. */
    method GetCitas() returns (r: seq<Cita>)
      ensures SortedBy(r, CitaStart, IntLe)
      ensures multiset(r) == multiset(citas)
      ensures forall t :: Tied(r, CitaStart, IntLe, t) == Tied(citas, CitaStart, IntLe, t)
    {
      IntLeIsTotalPreorder();
      r := SortBy(citas, CitaStart, IntLe);
      forall t { SortByStable(citas, CitaStart, IntLe, t); }
    }

    /** The agenda of one dentist: exactly their appointments, in order of start. */
    method GetCitasByDentista(dentistaId: string) returns (r: seq<Cita>)
      ensures SortedBy(r, CitaStart, IntLe)
      ensures multiset(r) == multiset(CitasOf(citas, dentistaId))
      ensures forall c :: c in r <==> c in citas && c.dentistaId == dentistaId
      ensures forall t :: Tied(r, CitaStart, IntLe, t) == Tied(CitasOf(citas, dentistaId), CitaStart, IntLe, t)
    {
      IntLeIsTotalPreorder();
      var mine := CitasOf(citas, dentistaId);
      r := SortBy(mine, CitaStart, IntLe);
      assert forall c :: c in r <==> c in multiset(mine);
      forall t { SortByStable(mine, CitaStart, IntLe, t); }
    }

    /**
     * The double-booking check. Scans the stored appointments in order and
     * answers with the first one of this dentist, other than `exclude`, whose
     * slot strictly overlaps [start, start + 2 h). Changes nothing.
     */
    method ValidateAvailability(dentistaId: string, start: int, exclude: Option<string>)
      returns (r: ValidationResult)
      ensures r == AvailabilityVerdict(citas, dentistaId, start, exclude)
      ensures r.isValid <==> !HasConflict(citas, dentistaId, start, exclude)
    {
      var newEnd := start + SlotMs;
      var i := 0;
      while i < |citas|
        invariant 0 <= i <= |citas|
        invariant forall j :: 0 <= j < i ==> !Blocks(citas[j], dentistaId, start, exclude)
      {
        var cita := citas[i];
        if Considered(cita, dentistaId, exclude) {
          var existingStart := cita.fechaHora;
          var existingEnd := existingStart + SlotMs;
          if start < existingEnd && newEnd > existingStart {
            assert Blocks(citas[i], dentistaId, start, exclude);
            return Rejected(ScheduleConflict(existingStart, existingEnd));
          }
        }
        i := i + 1;
      }
      return Accepted;
    }

    /**
     * Save an appointment: the dentist must exist, then the patient, then the
     * slot must be free of the dentist's other appointments. Any failure leaves
     * everything unchanged; success appends under `newId` (empty id) or
     * replaces by id.
     */
    method SaveCita(cita: Cita, newId: string) returns (r: ValidationResult)
      requires cita.id == "" ==> newId != "" && !HasKey(citas, CitaKey, newId)
      modifies this
      ensures dentistas == old(dentistas) && pacientes == old(pacientes)
      ensures !HasKey(dentistas, DentistaKey, cita.dentistaId) ==> r == Rejected(DentistaNotFound)
      ensures HasKey(dentistas, DentistaKey, cita.dentistaId) && !HasKey(pacientes, PacienteKey, cita.pacienteId) ==>
                r == Rejected(PacienteNotFound)
      ensures HasKey(dentistas, DentistaKey, cita.dentistaId) && HasKey(pacientes, PacienteKey, cita.pacienteId) ==>
                r == AvailabilityVerdict(old(citas), cita.dentistaId, cita.fechaHora, Some(cita.id))
      ensures r.isValid ==> citas == CommitCita(old(citas), cita, newId)
      ensures !r.isValid ==> citas == old(citas) && r.error.Some?
      ensures old(Valid()) ==> Valid()
    {
      if !HasKey(dentistas, DentistaKey, cita.dentistaId) {
        return Rejected(DentistaNotFound);
      }
      if !HasKey(pacientes, PacienteKey, cita.pacienteId) {
        return Rejected(PacienteNotFound);
      }
      var availability := ValidateAvailability(cita.dentistaId, cita.fechaHora, Some(cita.id));
      if !availability.isValid {
        return availability;
      }
      if Valid() {
        CommitKeepsScheduleConsistent(citas, cita, newId);
      }
      citas := CommitCita(citas, cita, newId);
      return Accepted;
    }

    /** Remove every appointment with this id, unconditionally. */
    method DeleteCita(id: string)
      modifies this
      ensures citas == RemoveKey(old(citas), CitaKey, id)
      ensures dentistas == old(dentistas) && pacientes == old(pacientes)
      ensures old(Valid()) ==> Valid()
    {
      if ScheduleConsistent(citas) {
        RemoveKeepsScheduleConsistent(citas, id);
      }
      citas := RemoveKey(citas, CitaKey, id);
    }
  }

  /** The appointments of one dentist, in stored order. */
  function CitasOf(citas: seq<Cita>, dentistaId: string): (r: seq<Cita>)
    ensures forall c :: c in r <==> c in citas && c.dentistaId == dentistaId
    ensures |r| <= |citas|
  {
    if citas == [] then []
    else if citas[0].dentistaId == dentistaId then [citas[0]] + CitasOf(citas[1..], dentistaId)
    else CitasOf(citas[1..], dentistaId)
  }

  /**
   * The per-dentist filter works appointment by appointment: it distributes
   * over concatenation and keeps a single appointment exactly when it is the
   * dentist's, so it keeps stored order and multiplicity.
   */
  lemma {:induction false} CitasOfAppend(s: seq<Cita>, t: seq<Cita>, dentistaId: string)
    ensures CitasOf(s + t, dentistaId) == CitasOf(s, dentistaId) + CitasOf(t, dentistaId)
  {
    if s == [] {
      assert s + t == t;
    } else {
      assert (s + t)[1..] == s[1..] + t;
      CitasOfAppend(s[1..], t, dentistaId);
    }
  }

  lemma CitasOfOne(c: Cita, dentistaId: string)
    ensures CitasOf([c], dentistaId) == (if c.dentistaId == dentistaId then [c] else [])
  {
  }

  /** The fixture satisfies the registry's invariant. */
  lemma SeedIsConsistent(todayAtTen: int)
    ensures UniqueKeys(MockDentistas, DentistaKey) && KeysNonEmpty(MockDentistas, DentistaKey)
    ensures UniqueKeys(MockPacientes, PacienteKey) && KeysNonEmpty(MockPacientes, PacienteKey)
    ensures ScheduleConsistent(MockCitas(todayAtTen))
  {
  }
}
