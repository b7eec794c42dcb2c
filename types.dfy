/**
 * The record shapes shared by the service and the forms: dentists, patients,
 * appointments (citas), the fixed list of specialties, and the verdict that
 * deletes, appointment saves and form checks report.
 */
module Types {
  import opened Wrappers

  /** A dentist. `especialidad` is a plain string: nothing forces it to be an `Especialidad` label. */
  datatype Dentista = Dentista(id: string, nombre: string, especialidad: string, email: string)

  /** A patient; `email` is the only optional field. */
  datatype Paciente = Paciente(
    id: string,
    nombre: string,
    fechaNacimiento: string,  // calendar date, YYYY-MM-DD
    telefono: string,
    email: Option<string>,
    abonado: bool)

  /**
   * An appointment. `fechaHora` is a single instant, in milliseconds since the
   * epoch; the two-hour duration is not part of the record.
   */
  datatype Cita = Cita(id: string, fechaHora: int, motivo: string, dentistaId: string, pacienteId: string)

  /** The five specialties, each with its display label. */
  datatype Especialidad = General | Ortodoncia | Endodoncia | Cirugia | Pediatria {
    function Label(): string {
      match this
      case General => "Odontología General"
      case Ortodoncia => "Ortodoncia"
      case Endodoncia => "Endodoncia"
      case Cirugia => "Cirugía Maxilofacial"
      case Pediatria => "Odontopediatría"
    }
  }

  const AllEspecialidades: seq<Especialidad> := [General, Ortodoncia, Endodoncia, Cirugia, Pediatria]

  /** The enumeration has exactly five members and their labels tell them apart. */
  lemma EspecialidadLabelsDistinct()
    ensures |AllEspecialidades| == 5
    ensures forall e: Especialidad :: e in AllEspecialidades
    ensures forall i, j :: 0 <= i < j < |AllEspecialidades| ==>
              AllEspecialidades[i].Label() != AllEspecialidades[j].Label()
  {
    forall e: Especialidad
      ensures e in AllEspecialidades
    {
      match e
      case General => assert AllEspecialidades[0] == e;
      case Ortodoncia => assert AllEspecialidades[1] == e;
      case Endodoncia => assert AllEspecialidades[2] == e;
      case Cirugia => assert AllEspecialidades[3] == e;
      case Pediatria => assert AllEspecialidades[4] == e;
    }
  }

  /**
   * The reasons a verdict can carry. The service and the forms report them as
   * fixed Spanish sentences; a schedule conflict reports the conflicting slot,
   * which the user interface prints as two local clock times.
   */
  datatype ClinicError =
    | AllFieldsRequired         // a required field of the form is empty
    | PatientFieldsRequired     // name, birth date or phone of a patient is empty
    | InvalidEmail              // the email does not have the accepted shape
    | InvalidPhone              // the phone does not have the accepted shape
    | DentistaHasFutureCitas    // the dentist still has an appointment to come
    | PacienteHasFutureCitas    // the patient still has an appointment to come
    | DentistaNotFound          // the appointment names no stored dentist
    | PacienteNotFound          // the appointment names no stored patient
    | ScheduleConflict(start: int, end: int)  // the slot clashes with [start, end)
    | UnknownError              // the form's fallback when no reason is given

  /** A boolean verdict plus an optional reason. */
  datatype ValidationResult = ValidationResult(isValid: bool, error: Option<ClinicError>)

  const Accepted: ValidationResult := ValidationResult(true, None)

  function Rejected(e: ClinicError): ValidationResult {
    ValidationResult(false, Some(e))
  }

  // Keys by which the collections are looked up and sorted.
  function DentistaKey(d: Dentista): string { d.id }
  function PacienteKey(p: Paciente): string { p.id }
  function CitaKey(c: Cita): string { c.id }
  function DentistaName(d: Dentista): string { d.nombre }
  function PacienteName(p: Paciente): string { p.nombre }
  function CitaStart(c: Cita): int { c.fechaHora }
}
