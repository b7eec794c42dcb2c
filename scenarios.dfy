/**
 * Concrete runs of the registry, written as clients that see only the
 * contracts of ClinicService.
 */
module Scenarios {
  import opened Wrappers
  import opened Types
  import opened Schedule
  import opened Clinic

  /** 2024-06-01T10:00:00Z in milliseconds since the epoch. */
  const TenAm: int := 1_717_236_000_000
  const HourMs: int := 60 * 60 * 1000

  method Registry() returns (svc: ClinicService)
    ensures fresh(svc)
    ensures svc.dentistas == [Dentista("P1", "Dra. Ana López", "Ortodoncia", "ana@clinica.com")]
    ensures svc.pacientes == [Paciente("Q1", "Carlos García", "1985-04-12", "555-1234", None, false)]
    ensures svc.citas == [Cita("A1", TenAm, "Control", "P1", "Q1")]
  {
    svc := new ClinicService(
      Some([Dentista("P1", "Dra. Ana López", "Ortodoncia", "ana@clinica.com")]),
      Some([Paciente("Q1", "Carlos García", "1985-04-12", "555-1234", None, false)]),
      Some([Cita("A1", TenAm, "Control", "P1", "Q1")]),
      0);
  }

  /**
   * P1 has an appointment at 10:00. A new one at 11:00 is refused, with the
   * 10:00-12:00 slot as the reason; one at 12:00 only touches it and is stored.
   */
  method DoubleBookingScenario() returns (at11: ValidationResult, at12: ValidationResult)
    ensures at11 == Rejected(ScheduleConflict(TenAm, TenAm + 2 * HourMs))
    ensures at12 == Accepted
  {
    var svc := Registry();
    assert DentistaKey(svc.dentistas[0]) == "P1" && PacienteKey(svc.pacientes[0]) == "Q1";
    at11 := svc.SaveCita(Cita("", TenAm + HourMs, "Revisión", "P1", "Q1"), "A2");
    assert Blocks(svc.citas[0], "P1", TenAm + HourMs, Some(""));
    at12 := svc.SaveCita(Cita("", TenAm + 2 * HourMs, "Revisión", "P1", "Q1"), "A3");
  }

  /**
   * Moving the 10:00 appointment to 11:00 under its own id overlaps only its
   * old slot, so it is accepted and the appointment is replaced in place.
   */
  method RescheduleScenario() returns (r: ValidationResult, after: seq<Cita>)
    ensures r == Accepted
    ensures after == [Cita("A1", TenAm + HourMs, "Control", "P1", "Q1")]
  {
    var svc := Registry();
    assert DentistaKey(svc.dentistas[0]) == "P1" && PacienteKey(svc.pacientes[0]) == "Q1";
    r := svc.SaveCita(Cita("A1", TenAm + HourMs, "Control", "P1", "Q1"), "");
    after := svc.citas;
  }

  /**
   * Deleting P1 while the 10:00 appointment is still ahead is refused and
   * keeps P1; once the clock reaches 10:00 the same delete succeeds, and the
   * appointment stays behind.
   */
  method DeleteScenario() returns (early: ValidationResult, kept: seq<Dentista>, late: ValidationResult,
                                   remaining: seq<Dentista>, citas: seq<Cita>)
    ensures early == Rejected(DentistaHasFutureCitas)
    ensures kept == [Dentista("P1", "Dra. Ana López", "Ortodoncia", "ana@clinica.com")]
    ensures late == Accepted && remaining == []
    ensures citas == [Cita("A1", TenAm, "Control", "P1", "Q1")]
  {
    var svc := Registry();
    early := svc.DeleteDentista("P1", TenAm - HourMs);
    assert svc.citas[0].dentistaId == "P1" && svc.citas[0].fechaHora > TenAm - HourMs;
    kept := svc.dentistas;
    late := svc.DeleteDentista("P1", TenAm);
    remaining := svc.dentistas;
    citas := svc.citas;
  }

  /**
   * An appointment for a patient who does not exist is refused, and no later
   * listing of the appointments shows it.
   */
  method MissingPatientScenario() returns (r: ValidationResult, listed: seq<Cita>)
    ensures r == Rejected(PacienteNotFound)
    ensures forall c :: c in listed ==> c.pacienteId != "Q9"
  {
    var svc := Registry();
    assert DentistaKey(svc.dentistas[0]) == "P1";
    r := svc.SaveCita(Cita("", TenAm + 3 * HourMs, "Urgencia", "P1", "Q9"), "A4");
    listed := svc.GetCitas();
    assert forall c :: c in listed ==> c in multiset(svc.citas);
  }
}
