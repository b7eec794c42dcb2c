/**
 * The checks the three editing forms make before they call the registry, and
 * the save handlers that combine those checks with the registry call. The
 * registry itself stores whatever dentist or patient it is given.
 */
module Forms {
  import opened Wrappers
  import opened Types
  import opened Records
  import opened Schedule
  import opened Clinic

  /** The characters the regular-expression class `\s` matches. */
  predicate IsWhitespace(ch: char) {
    || ch == ' ' || ch == '\t' || ch == '\n' || ch == '\U{000B}' || ch == '\U{000C}' || ch == '\r'
    || ch == '\U{00A0}' || ch == '\U{1680}' || ('\U{2000}' <= ch <= '\U{200A}')
    || ch == '\U{2028}' || ch == '\U{2029}' || ch == '\U{202F}' || ch == '\U{205F}'
    || ch == '\U{3000}' || ch == '\U{FEFF}'
  }

  /** `t` is made of characters of the class `[^\s@]`. */
  predicate NoAtNoSpace(t: string) {
    forall k :: 0 <= k < |t| ==> t[k] != '@' && !IsWhitespace(t[k])
  }

  /**
   * `/^[^\s@]+@[^\s@]+\.[^\s@]+$/.test(s)`: some way of cutting `s` into a
   * non-empty run, `@`, a non-empty run, `.` and a non-empty run, where no run
   * holds `@` or whitespace.
   */
  predicate MatchesEmailRegex(s: string) {
    exists a, d | 0 < a && a + 1 < d < |s| - 1 ::
      s[a] == '@' && s[d] == '.' && NoAtNoSpace(s[..a]) && NoAtNoSpace(s[a + 1..d]) && NoAtNoSpace(s[d + 1..])
  }

  /**
   * The accepted addresses in plain words: no whitespace, exactly one `@`, a
   * non-empty part before it, and a `.` after it that is neither the first nor
   * the last character of the domain.
   */
  predicate WellFormedEmail(s: string) {
    && (forall k :: 0 <= k < |s| ==> !IsWhitespace(s[k]))
    && exists a | 0 < a < |s| ::
         && s[a] == '@'
         && (forall k :: 0 <= k < |s| && k != a ==> s[k] != '@')
         && (exists d | a + 1 < d < |s| - 1 :: s[d] == '.')
  }

  /** The email pattern accepts exactly the well-formed addresses. */
  lemma EmailRegexCharacterized(s: string)
    ensures MatchesEmailRegex(s) <==> WellFormedEmail(s)
  {
    if MatchesEmailRegex(s) {
      var a, d :| 0 < a && a + 1 < d < |s| - 1 && s[a] == '@' && s[d] == '.' &&
        NoAtNoSpace(s[..a]) && NoAtNoSpace(s[a + 1..d]) && NoAtNoSpace(s[d + 1..]);
      MatchImpliesWellFormed(s, a, d);
    }
    if WellFormedEmail(s) {
      var a :| 0 < a < |s| && s[a] == '@' && (forall k :: 0 <= k < |s| && k != a ==> s[k] != '@') &&
        (exists d | a + 1 < d < |s| - 1 :: s[d] == '.');
      var d :| a + 1 < d < |s| - 1 && s[d] == '.';
      WellFormedImpliesMatch(s, a, d);
    }
  }

  lemma MatchImpliesWellFormed(s: string, a: int, d: int)
    requires 0 < a && a + 1 < d < |s| - 1 && s[a] == '@' && s[d] == '.'
    requires NoAtNoSpace(s[..a]) && NoAtNoSpace(s[a + 1..d]) && NoAtNoSpace(s[d + 1..])
    ensures WellFormedEmail(s)
  {
    forall k | 0 <= k < |s|
      ensures !IsWhitespace(s[k]) && (k != a ==> s[k] != '@')
    {
      if k < a {
        assert s[k] == s[..a][k];
      } else if a < k < d {
        assert s[k] == s[a + 1..d][k - a - 1];
      } else if d < k {
        assert s[k] == s[d + 1..][k - d - 1];
      }
    }
  }

  lemma WellFormedImpliesMatch(s: string, a: int, d: int)
    requires 0 < a && a + 1 < d < |s| - 1 && s[a] == '@' && s[d] == '.'
    requires forall k :: 0 <= k < |s| ==> !IsWhitespace(s[k]) && (k != a ==> s[k] != '@')
    ensures MatchesEmailRegex(s)
  {
    var local, host, top := s[..a], s[a + 1..d], s[d + 1..];
    assert NoAtNoSpace(local) by {
      forall k | 0 <= k < |local| ensures local[k] == s[k] { }
    }
    assert NoAtNoSpace(host) by {
      forall k | 0 <= k < |host| ensures host[k] == s[a + 1 + k] { }
    }
    assert NoAtNoSpace(top) by {
      forall k | 0 <= k < |top| ensures top[k] == s[d + 1 + k] { }
    }
  }

  /** A character of the class `[0-9+\-\s()]`. */
  predicate IsPhoneChar(ch: char) {
    ('0' <= ch <= '9') || ch == '+' || ch == '-' || IsWhitespace(ch) || ch == '(' || ch == ')'
  }

  /** `/^[0-9+\-\s()]{7,}$/.test(s)`: seven or more phone characters. */
  predicate MatchesPhoneRegex(s: string) {
    |s| >= 7 && forall k :: 0 <= k < |s| ==> IsPhoneChar(s[k])
  }

  /**
   * The dentist form: all three fields are required, and only then is the
   * email format checked.
   */
  function CheckDentistForm(f: Dentista): (r: ValidationResult)
    ensures r.isValid <==> f.nombre != "" && f.especialidad != "" && WellFormedEmail(f.email)
    ensures f.nombre == "" || f.especialidad == "" || f.email == "" ==> r == Rejected(AllFieldsRequired)
    ensures f.nombre != "" && f.especialidad != "" && f.email != "" && !WellFormedEmail(f.email) ==>
              r == Rejected(InvalidEmail)
    ensures r.isValid ==> r == Accepted
  {
    EmailRegexCharacterized(f.email);
    if f.nombre == "" || f.especialidad == "" || f.email == "" then Rejected(AllFieldsRequired)
    else if !MatchesEmailRegex(f.email) then Rejected(InvalidEmail)
    else Accepted
  }

  /** The patient gave an email: the field is present and not empty. */
  predicate EmailGiven(p: Paciente) {
    p.email.Some? && p.email.value != ""
  }

  /**
   * The patient form: name, birth date and phone are required; then the phone
   * format; then the email format, and only when an email was given.
   */
  function CheckPatientForm(f: Paciente): (r: ValidationResult)
    ensures r.isValid <==>
              && f.nombre != "" && f.fechaNacimiento != "" && MatchesPhoneRegex(f.telefono)
              && (EmailGiven(f) ==> WellFormedEmail(f.email.value))
    ensures f.nombre == "" || f.fechaNacimiento == "" || f.telefono == "" ==> r == Rejected(PatientFieldsRequired)
    ensures f.nombre != "" && f.fechaNacimiento != "" && f.telefono != "" && !MatchesPhoneRegex(f.telefono) ==>
              r == Rejected(InvalidPhone)
    ensures (f.nombre != "" && f.fechaNacimiento != "" && MatchesPhoneRegex(f.telefono) && EmailGiven(f) &&
             !WellFormedEmail(f.email.value)) ==> r == Rejected(InvalidEmail)
    ensures r.isValid ==> r == Accepted
  {
    if f.nombre == "" || f.fechaNacimiento == "" || f.telefono == "" then Rejected(PatientFieldsRequired)
    else if !MatchesPhoneRegex(f.telefono) then Rejected(InvalidPhone)
    else if EmailGiven(f) && !MatchesEmailRegex(f.email.value) then
      EmailRegexCharacterized(f.email.value);
      Rejected(InvalidEmail)
    else
      assert EmailGiven(f) ==> WellFormedEmail(f.email.value) by {
        if EmailGiven(f) { EmailRegexCharacterized(f.email.value); }
      }
      Accepted
  }

  /** The appointment form: dentist, patient, date and reason are all required. */
  predicate CitaFormComplete(dentistaId: string, pacienteId: string, dateLocal: string, motivo: string) {
    dentistaId != "" && pacienteId != "" && dateLocal != "" && motivo != ""
  }

  /** The id a form submits: the edited record's id, or empty when creating. */
  function FormId<T>(editing: Option<T>, key: T -> string): string {
    match editing
    case Some(e) => key(e)
    case None => ""
  }

  /**
   * The dentist form's save handler: a rejected form changes nothing; an
   * accepted one is handed to the registry, as a new dentist when creating and
   * as a replacement of the edited one when editing.
   */
  method SubmitDentistForm(svc: ClinicService, editing: Option<Dentista>, nombre: string, especialidad: string,
                           email: string, newId: string)
    returns (r: ValidationResult)
    requires FormId(editing, DentistaKey) == "" ==> newId != "" && !HasKey(svc.dentistas, DentistaKey, newId)
    modifies svc
    ensures var form := Dentista(FormId(editing, DentistaKey), nombre, especialidad, email);
      && r == CheckDentistForm(form)
      && (!r.isValid ==> svc.dentistas == old(svc.dentistas))
      && (r.isValid ==> svc.dentistas == Upsert(old(svc.dentistas), DentistaKey, form, form.(id := newId)))
    ensures editing.Some? && editing.value.id != "" ==> |svc.dentistas| == |old(svc.dentistas)|
    ensures svc.pacientes == old(svc.pacientes) && svc.citas == old(svc.citas)
  {
    var form := Dentista(FormId(editing, DentistaKey), nombre, especialidad, email);
    r := CheckDentistForm(form);
    if !r.isValid {
      return;
    }
    var _ := svc.SaveDentista(form, newId);
  }

  /** The patient form's save handler; as SubmitDentistForm. */
  method SubmitPatientForm(svc: ClinicService, editing: Option<Paciente>, nombre: string, fechaNacimiento: string,
                           telefono: string, email: string, abonado: bool, newId: string)
    returns (r: ValidationResult)
    requires FormId(editing, PacienteKey) == "" ==> newId != "" && !HasKey(svc.pacientes, PacienteKey, newId)
    modifies svc
    ensures var form := Paciente(FormId(editing, PacienteKey), nombre, fechaNacimiento, telefono, Some(email), abonado);
      && r == CheckPatientForm(form)
      && (!r.isValid ==> svc.pacientes == old(svc.pacientes))
      && (r.isValid ==> svc.pacientes == Upsert(old(svc.pacientes), PacienteKey, form, form.(id := newId)))
    ensures editing.Some? && editing.value.id != "" ==> |svc.pacientes| == |old(svc.pacientes)|
    ensures svc.dentistas == old(svc.dentistas) && svc.citas == old(svc.citas)
  {
    var form := Paciente(FormId(editing, PacienteKey), nombre, fechaNacimiento, telefono, Some(email), abonado);
    r := CheckPatientForm(form);
    if !r.isValid {
      return;
    }
    var _ := svc.SavePaciente(form, newId);
  }

  /**
   * The appointment form's save handler. `dateLocal` is the text of the date
   * field and `instant` the instant it denotes. An incomplete form changes
   * nothing; otherwise the registry's verdict is reported as it is (the
   * "unknown error" fallback is never reached).
   */
  method SubmitAppointmentForm(svc: ClinicService, editing: Option<Cita>, dentistaId: string, pacienteId: string,
                               dateLocal: string, instant: int, motivo: string, newId: string)
    returns (r: ValidationResult)
    requires FormId(editing, CitaKey) == "" ==> newId != "" && !HasKey(svc.citas, CitaKey, newId)
    modifies svc
    ensures !CitaFormComplete(dentistaId, pacienteId, dateLocal, motivo) ==>
              r == Rejected(AllFieldsRequired) && svc.citas == old(svc.citas)
    ensures CitaFormComplete(dentistaId, pacienteId, dateLocal, motivo) ==>
              (r.isValid <==>
                 && HasKey(old(svc.dentistas), DentistaKey, dentistaId)
                 && HasKey(old(svc.pacientes), PacienteKey, pacienteId)
                 && !HasConflict(old(svc.citas), dentistaId, instant, Some(FormId(editing, CitaKey))))
    ensures CitaFormComplete(dentistaId, pacienteId, dateLocal, motivo) ==>
              r == (if !HasKey(old(svc.dentistas), DentistaKey, dentistaId) then Rejected(DentistaNotFound)
                    else if !HasKey(old(svc.pacientes), PacienteKey, pacienteId) then Rejected(PacienteNotFound)
                    else AvailabilityVerdict(old(svc.citas), dentistaId, instant, Some(FormId(editing, CitaKey))))
    ensures var form := Cita(FormId(editing, CitaKey), instant, motivo, dentistaId, pacienteId);
      && (r.isValid ==> svc.citas == CommitCita(old(svc.citas), form, newId))
      && (!r.isValid ==> svc.citas == old(svc.citas))
    ensures editing.Some? && editing.value.id != "" ==> |svc.citas| == |old(svc.citas)|
    ensures r.error != Some(UnknownError)
    ensures svc.dentistas == old(svc.dentistas) && svc.pacientes == old(svc.pacientes)
  {
    var form := Cita(FormId(editing, CitaKey), instant, motivo, dentistaId, pacienteId);
    if !CitaFormComplete(dentistaId, pacienteId, dateLocal, motivo) {
      return Rejected(AllFieldsRequired);
    }
    var result := svc.SaveCita(form, newId);
    if !result.isValid {
      r := if result.error.Some? then result else Rejected(UnknownError);
      return;
    }
    r := result;
  }
}
