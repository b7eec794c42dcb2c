# Dental clinic scheduling rules, modelled in Dafny

A small dental clinic keeps three lists in memory: dentists (`Dentista`),
patients (`Paciente`) and appointments (`Cita`). One registry object,
`ClinicService`, owns the lists and is the only code that changes them. The
editing forms of the web front end check the fields before they call it.

The model covers:

- **the record shapes** (`types.dfy`). The three records, the five-valued
  `Especialidad`, and `ValidationResult`, which is a boolean verdict plus an
  optional reason (`ClinicError`).
- **the registry** (`clinic.dfy`). `ClinicService` is a class whose three
  `seq` fields its methods reassign. It offers:
  - create-or-replace saves;
  - deletes that are blocked while the record still has a future appointment;
  - the appointment save, which checks the dentist, then the patient, then
    the slot;
  - copy-and-sort list queries.
- **the double-booking rule** (`schedule.dfy`).
  - Every appointment occupies the fixed slot `[start, start + 2 h)`.
  - Two slots of one dentist conflict only when they strictly overlap.
  - The availability check reports the first conflicting appointment in
    stored order.
  - The invariant "minted unique ids, no dentist double-booked" is preserved
    by every save and delete.
- **id-keyed list helpers** (`records.dfy`): append under a fresh id, replace
  by id (`map`), remove by id (`filter`).
- **the stable sort** used by the list queries (`sorting.dfy`).
- **the form checks and save handlers of the front end** (`forms.dfy`). This
  includes the email and phone regular expressions. The email pattern is
  proved equal to a plain-words description of the addresses it accepts.
- **the dashboard's appointments-per-specialty chart** (`dashboard.dfy`).
- **concrete runs** (`scenarios.dfy`):
  - a double booking;
  - a reschedule into a slot that overlaps only the appointment's own old slot;
  - a blocked delete that later succeeds;
  - an appointment for a missing patient.

Instants (`fechaHora`, "now") are integers in milliseconds. The current time
is a parameter of the deletes. The id generator is a `newId` parameter that
must be fresh when a record is created. The locale-aware name comparison is a
caller-supplied total preorder `nameLe`.

Two behaviours of the code are easy to miss, and the model keeps both:

- The registry validates no dentist or patient fields. The checks exist only
  in the form handlers.
- `Dentista.especialidad` is a plain string. Nothing forces it to be one of
  the five `Especialidad` labels.

## Model

| member | source | states |
|---|---|---|
| `Types.EspecialidadLabelsDistinct` | types.ts:25-31 | The specialty enumeration has exactly five members, and their labels are pairwise distinct. |
| `Records.Replace` | services/clinicService.ts:55-57 | Replace-by-id keeps the length, keeps every position's id, puts the new record wherever its id was, and leaves every other record alone. An unknown id changes nothing. |
| `Records.RemoveKey` | services/clinicService.ts:171 | Remove-by-id keeps exactly the records with another id. No record with that id remains. An absent id changes nothing. |
| `Records.RemoveKeyAppend` | services/clinicService.ts:171 | Removal distributes over concatenation. Together with `Records.RemoveKeyOne` (a record is kept iff its id differs), this makes the result the stored-order subsequence of the kept records, each as often as stored. |
| `Records.Upsert` | services/clinicService.ts:52-57 | An empty id appends the minted record, so the length grows by one and the old prefix is kept. A non-empty id keeps the length, replaces the records with that id, and leaves the others unchanged. |
| `Records.UpsertKeepsKeys` | services/clinicService.ts:52-57 | Create-or-replace keeps ids unique and non-empty, provided the minted id is fresh. |
| `Records.RemoveKeyKeepsKeys` | services/clinicService.ts:68 | Removing by id keeps ids unique and non-empty. |
| `Sorting.SortBy` | services/clinicService.ts:47 | The list sort returns a permutation of its input that is sorted by key under any total preorder. |
| `Sorting.SortByStable` | services/clinicService.ts:47 | The sort is stable. For every key, the records whose keys are equivalent to it come out in the order they were stored. |
| `Schedule.OverlapsIffCloserThanSlot` | services/clinicService.ts:119-131 | Two slots overlap iff their starts are less than 7 200 000 ms apart. Overlap is symmetric. Slots exactly two hours apart (touching) do not overlap. |
| `Schedule.FirstBlocking` | services/clinicService.ts:124-137 | The scan finds nothing iff no stored appointment blocks the slot. Otherwise it finds a blocking appointment with no blocking appointment before it in stored order. |
| `Schedule.AvailabilityVerdict` | services/clinicService.ts:118-139 | The verdict is valid iff no appointment of the same dentist, other than the excluded id, strictly overlaps the slot. A rejection carries the two-hour slot of the first blocking appointment in stored order. |
| `Schedule.CommitKeepsScheduleConsistent` | services/clinicService.ts:154-165 | A save that passed the availability check keeps appointment ids minted and unique, and keeps every dentist free of overlaps. This holds when the id is fresh and the check excluded the appointment's own id. |
| `Schedule.RescheduleIgnoresOwnSlot` | services/clinicService.ts:124 | With unique ids, excluding an appointment's own id means that only the dentist's other appointments can block its new time. |
| `Schedule.RemoveKeepsScheduleConsistent` | services/clinicService.ts:169-173 | Deleting appointments by id keeps the schedule invariant. |
| `Clinic.ClinicService.constructor` | services/clinicService.ts:38-42 | Each list is what the store held, or the fixture if nothing was stored. A cold start satisfies the registry invariant. |
| `Clinic.ClinicService.GetDentistas` | services/clinicService.ts:45-48 | Returns a name-sorted permutation of the stored dentists. Dentists with equivalent names keep their stored order. Nothing changes. |
| `Clinic.ClinicService.SaveDentista` | services/clinicService.ts:50-60 | An empty id gets the fresh id and is appended. Otherwise the dentist replaces those with its id. The returned record carries the id. Other lists are untouched, no field is checked, and the invariant is kept. |
| `Clinic.ClinicService.DeleteDentista` | services/clinicService.ts:62-73 | Fails iff some appointment of the dentist starts strictly after `now`, and then changes nothing. Otherwise it removes every dentist with that id and leaves the appointments alone (no cascade). |
| `Clinic.ClinicService.GetPacientes` | services/clinicService.ts:76-79 | Returns a name-sorted permutation of the stored patients. Patients with equivalent names keep their stored order. Nothing changes. |
| `Clinic.ClinicService.SavePaciente` | services/clinicService.ts:81-91 | The same as SaveDentista, for patients. |
| `Clinic.ClinicService.DeletePaciente` | services/clinicService.ts:93-102 | The same as DeleteDentista, keyed by the appointment's patient. |
| `Clinic.ClinicService.GetCitas` | services/clinicService.ts:105-108 | Returns a permutation of the stored appointments sorted by start instant. Appointments with the same start keep their stored order. Nothing changes. |
| `Clinic.ClinicService.GetCitasByDentista` | services/clinicService.ts:110-115 | Returns exactly the dentist's appointments, sorted by start instant, as a permutation of the stored-order filter. Appointments with the same start keep their filtered order. |
| `Clinic.CitasOf` | services/clinicService.ts:112-113 | The per-dentist filter holds exactly the stored appointments of that dentist. |
| `Clinic.CitasOfAppend` | services/clinicService.ts:112-113 | The filter distributes over concatenation. Together with `Clinic.CitasOfOne`, it keeps exactly the dentist's appointments in stored order, each as often as stored. |
| `Clinic.ClinicService.ValidateAvailability` | services/clinicService.ts:118-139 | The loop's answer equals the first-conflict verdict. It is valid iff nothing blocks the slot. It changes no state. |
| `Clinic.ClinicService.SaveCita` | services/clinicService.ts:141-167 | A missing dentist is reported first, then a missing patient, then the availability verdict (excluding its own id). Any failure leaves every list unchanged. Success commits the append or the replace. The schedule invariant is kept. |
| `Clinic.ClinicService.DeleteCita` | services/clinicService.ts:169-173 | Unconditionally removes exactly the appointments with that id and keeps the invariant. |
| `Clinic.SeedIsConsistent` | services/clinicService.ts:4-17 | The fixture's ids are unique and non-empty, and its appointments do not double-book. |
| `Forms.EmailRegexCharacterized` | App.tsx:260-261 | The email pattern accepts exactly the strings that have no whitespace and exactly one `@`. The part before the `@` must be non-empty. The domain must contain a `.` that is neither its first nor its last character. |
| `Forms.CheckDentistForm` | App.tsx:254-265 | Accepted iff name, specialty and email are non-empty and the email is well formed. The required-fields error takes precedence over the format error. |
| `Forms.CheckPatientForm` | App.tsx:426-442 | Accepted iff name, birth date and phone are present, the phone is at least seven characters from digits, `+`, `-`, whitespace and parentheses, and any given email is well formed. The errors are reported in that order. |
| `Forms.SubmitDentistForm` | App.tsx:240-272 | A rejected form changes nothing. An accepted one is saved with an empty id when creating and with the edited dentist's id when editing, so an edit never changes the length. |
| `Forms.SubmitPatientForm` | App.tsx:410-449 | The same as SubmitDentistForm, for the patient form. |
| `Forms.SubmitAppointmentForm` | App.tsx:556-594 | An incomplete form is rejected with nothing changed. Otherwise the result is the registry's own verdict: dentist not found, then patient not found, then the first-conflict verdict for the slot with the edited id excluded. The registry's write passes through, and the fallback "unknown error" never occurs. |
| `Dashboard.FindById` | App.tsx:112 | Finds a dentist iff one has the id, and then it is the first one with that id. |
| `Dashboard.Bump` | App.tsx:114 | Raises the count for one specialty by one and leaves the others. A new name is added at the end. The total grows by one. |
| `Dashboard.BumpKeepsNamesDistinct` | App.tsx:114 | Bumping keeps one entry per specialty. |
| `Dashboard.AppointmentsBySpecialty` | App.tsx:110-117 | Builds one entry per specialty met. Each value counts the appointments whose dentist has that specialty. The values sum to the number of appointments whose dentist exists. |
| `Scenarios.DoubleBookingScenario` | services/clinicService.ts:119-131 | Against a 10:00 appointment, 11:00 is refused with the 10:00-12:00 slot as the reason, and 12:00 (touching) is accepted. |
| `Scenarios.RescheduleScenario` | services/clinicService.ts:154-163 | Moving an appointment one hour under its own id is accepted, and the record is replaced in place. |
| `Scenarios.DeleteScenario` | services/clinicService.ts:62-73 | Deleting a dentist before their appointment is refused, and the dentist list is exactly the original record. At the appointment's start instant the delete succeeds, and the appointment list is exactly the original appointment. |
| `Scenarios.MissingPatientScenario` | services/clinicService.ts:148-151 | An appointment for an unknown patient is refused, and no later listing shows it. |

## Left out

- Persistence. Loading and saving through the browser's key-value storage and
  JSON is not modelled. The constructor receives what the store held under
  each key. The write-through after every successful mutation is not modelled.
- Latency and asynchrony. The simulated delays and the promise wrappers are
  left out. Every operation is a plain sequential method.
- Id minting. `crypto.randomUUID` is a foreign call. It is replaced by a
  `newId` argument that must be non-empty and unused when a record is created.
- Clock and date parsing.
  - `new Date()` is the `now` argument.
  - ISO parsing is replaced by integer milliseconds.
  - The seeded appointment's "today at 10:00" is a constructor argument.
  - NaN timestamps, which make every overlap test false, are not modelled.
  - The exception that converting an empty date field throws before the
    required-field check (App.tsx:565) is not modelled.
- Locale. `localeCompare` is a caller-supplied total preorder on names. The
  conflict message's clock-time text is the conflicting `(start, end)` pair.
- Clinic.ClinicService.ValidateAvailability: the source filters the dentist's
  appointments first and then loops over them. The model does one scan with
  the same test. The first hit and its order are the same, and the method is
  proved equal to the verdict function.
- Aliasing of the saved argument. The source writes the minted id into the
  caller's object and stores that object. The model stores and returns a
  record value.
- Dashboard.AppointmentsBySpecialty: the chart keeps specialties in
  first-seen order. JavaScript objects list integer-like keys first, and that
  ordering is not modelled.
- Dashboard.AppointmentsBySpecialty: the tally is modelled as a dictionary
  without inherited keys. The source counts into a plain object, so a
  specialty named like a built-in object member behaves differently there.
  For `constructor` or `toString`, the tally is a text concatenation. For
  `__proto__`, nothing is recorded. The model counts such names like any
  other.
- Presentation: React components, routing, modals, charts, date formatting,
  loading flags and the UI component library.
