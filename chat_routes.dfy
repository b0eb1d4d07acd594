/**
 * The workflow endpoints of routes/chatbot.py over the `chats` and `appointments`
 * collections: recording an assessment, requesting an appointment for a serious one,
 * a doctor's decision on a request, reading an assessment, and editing or deleting a
 * message. The caller is the identity `require_auth` recorded (`g.user_id`, `g.role`);
 * the endpoints that also carry `require_role('doctor')` are entered only after that
 * gate has let the request through.
 */
module ChatRoutes {
  import opened Common
  import opened Strings
  import opened Web
  import opened Triage
  import opened MedicineData
  import opened MedicineBase
  import ModelLoader

  /** The identity of the caller: `g.user_id` and `g.role`. */
  datatype Caller = Caller(id: Id, role: Field)

  /** The assessment form as stored, after `or ''` on the text fields. */
  datatype Form = Form(age: Json, symptoms: string, duration: Json, allergies: string, conditions: string)

  /** The fields only an assessment document has. */
  datatype AssessmentRecord = AssessmentRecord(form: Form, severity: Severity, advice: string, medsRaw: string,
                                               suggested: seq<string>, details: map<string, Medicine>)

  /** A document of `chats`. A field the document lacks (or holds as `null`) is `None`;
      an assessment (`type: 'assessment'`) carries its record. `context` is what
      `doc.get('context', {}) or {}` reads: the context a chat message was stored with,
      and `NoKeys` for a document without one. */
  datatype ChatDoc = ChatDoc(userId: Option<string>, fromRole: Option<string>, doctorId: Option<string>,
                             question: Option<string>, answer: Option<string>, assessment: Option<AssessmentRecord>,
                             context: ModelLoader.Context)

  /** A context dictionary without any of the keys `generate_answer` reads. */
  const NoKeys := ModelLoader.Context(None, None, None, None)

  /** The snapshot of the assessment an appointment copies. */
  datatype Snapshot = Snapshot(form: Form, severity: Severity, advice: string, assessmentId: string)

  /** A document of `appointments`; `note` is absent until a doctor decides. */
  datatype Appointment = Appointment(patientId: Id, assessmentId: string, snapshot: Snapshot, desiredDate: Json,
                                     notes: Json, status: string, note: Option<Field>)

  /** Both collections. */
  datatype Clinic = Clinic(chats: map<Id, ChatDoc>, appointments: map<Id, Appointment>)

  datatype AssessReply = AssessReply(assessmentId: Id, severity: Severity, advice: string, suggested: seq<string>,
                                     details: map<string, Medicine>, medsRaw: string)

  /** Python's `str()` of a field that may be `None`. */
  function PyStr(v: Option<string>): string {
    if v.Some? then v.value else "None"
  }

  /** `g.role or 'patient'`. */
  function RoleOrPatient(role: Field): string {
    if role.Truthy() then role.s else "patient"
  }

  /** The appointment statuses a store may hold. */
  predicate KnownStatus(s: string) {
    s == "pending" || s == "accepted" || s == "declined"
  }

  /** What every appointment satisfies: a known status and a serious assessment behind it. */
  predicate ClinicInvariant(c: Clinic) {
    forall id | id in c.appointments ::
      KnownStatus(c.appointments[id].status) && c.appointments[id].snapshot.severity != NonUrgent
  }

  // ---------------------------------------------------------------- appointments

  /** The assessment `chats.find_one({'_id': aid, 'user_id': caller, 'type': 'assessment'})` finds. */
  predicate OwnAssessment(chats: map<Id, ChatDoc>, aid: Id, callerId: Id) {
    aid in chats && chats[aid].userId == Some(callerId) && chats[aid].assessment.Some?
  }

  /** `data.get('notes', '')`: `notes` is `None` when the request has no `notes` key. */
  function NotesOrEmpty(notes: Option<Json>): Json {
    if notes.Some? then notes.value else JStr("")
  }

  /** `POST /appointments`: the new appointment's id, or the error; and the new collections. */
  function CreateAppointmentResult(c: Clinic, caller: Caller, assessmentId: Field, desiredDate: Json, notes: Option<Json>,
                                   newId: Id): (Result<Id, Status>, Clinic)
  {
    if !assessmentId.Truthy() then (Err(BadRequest), c)
    else
      match ParseObjectId(assessmentId.s)
      case None => (Err(BadRequest), c)
      case Some(aid) =>
        if !OwnAssessment(c.chats, aid, caller.id) then (Err(NotFound), c)
        else
          var a := c.chats[aid].assessment.value;
          if a.severity == NonUrgent then (Err(Forbidden), c)
          else
            var snapshot := Snapshot(a.form, a.severity, a.advice, assessmentId.s);
            var appt := Appointment(caller.id, assessmentId.s, snapshot, desiredDate, NotesOrEmpty(notes), "pending", None);
            (Ok(newId), c.(appointments := c.appointments[newId := appt]))
  }

  /** The message that tells a patient about an accepted appointment. */
  function DoctorNote(patientId: Id, note: string, doctorId: Id): ChatDoc {
    ChatDoc(Some(patientId), Some("doctor"), Some(doctorId), None, Some("Appointment update: " + note), None, NoKeys)
  }

  /** `PUT /appointments/<id>/status`; a request without a `note` key stores the empty note. */
  function UpdateStatusResult(c: Clinic, caller: Caller, appointmentId: string, status: Field, note: Field,
                              newChatId: Id): (Result<(), Status>, Clinic)
  {
    if status != Given("accepted") && status != Given("declined") then (Err(BadRequest), c)
    else
      match ParseObjectId(appointmentId)
      case None => (Err(BadRequest), c)
      case Some(id) =>
        if id !in c.appointments then (Err(NotFound), c)
        else
          var appt := c.appointments[id];
          var appointments := c.appointments[id := appt.(status := status.s, note := Some(note.GetOr("")))];
          var chats :=
            if status.s == "accepted" && note.Truthy() then c.chats[newChatId := DoctorNote(appt.patientId, note.s, caller.id)]
            else c.chats;
          (Ok(()), Clinic(chats, appointments))
  }

  // ---------------------------------------------------------------- reading and changing messages

  /** `GET /assessments/<id>`: doctors read any assessment, patients their own. */
  function ReadAssessmentResult(chats: map<Id, ChatDoc>, caller: Caller, assessmentId: string): Result<ChatDoc, Status> {
    match ParseObjectId(assessmentId)
    case None => Err(BadRequest)
    case Some(id) =>
      if id !in chats || chats[id].assessment.None? then Err(NotFound)
      else if caller.role != Given("doctor") && PyStr(chats[id].userId) != caller.id then Err(Forbidden)
      else Ok(chats[id])
  }

  /** Who may edit or delete a message: its owner, or the doctor who wrote it. */
  predicate MayModify(doc: ChatDoc, caller: Caller) {
    || PyStr(doc.userId) == caller.id
    || (caller.role == Given("doctor") && doc.fromRole == Some("doctor") && PyStr(doc.doctorId) == caller.id)
  }

  /** The question a re-run answers: `new_question or doc.get('question') or ''`. */
  function RerunQuestion(newQuestion: Field, doc: ChatDoc): string {
    if newQuestion.Truthy() then newQuestion.s
    else if doc.question.Some? && doc.question.value != "" then doc.question.value
    else ""
  }

  /** `PUT /message/<id>`; `generate(question, role, context)` is the model's answer. */
  function UpdateMessageResult(c: Clinic, caller: Caller, messageId: string, newQuestion: Field, rerun: Json,
                               generate: (string, string, ModelLoader.Context) -> string): (Result<(), Status>, Clinic)
  {
    match ParseObjectId(messageId)
    case None => (Err(BadRequest), c)
    case Some(id) =>
      if id !in c.chats then (Err(NotFound), c)
      else if !MayModify(c.chats[id], caller) then (Err(Forbidden), c)
      else
        var doc := c.chats[id];
        var asked := if newQuestion.Given? then doc.(question := Some(newQuestion.s)) else doc;
        var answered :=
          if rerun.Truthy() then asked.(answer := Some(generate(RerunQuestion(newQuestion, doc), RoleOrPatient(caller.role), doc.context)))
          else asked;
        if newQuestion.Given? || rerun.Truthy() then (Ok(()), c.(chats := c.chats[id := answered]))
        else (Ok(()), c)
  }

  /** `DELETE /message/<id>`. */
  function DeleteMessageResult(c: Clinic, caller: Caller, messageId: string): (Result<(), Status>, Clinic) {
    match ParseObjectId(messageId)
    case None => (Err(BadRequest), c)
    case Some(id) =>
      if id !in c.chats then (Err(NotFound), c)
      else if !MayModify(c.chats[id], caller) then (Err(Forbidden), c)
      else (Ok(()), c.(chats := c.chats - {id}))
  }

  // ---------------------------------------------------------------- the store

  class ClinicStore {
    var chats: map<Id, ChatDoc>
    var appointments: map<Id, Appointment>

    predicate Valid()
      reads this
    {
      ClinicInvariant(Clinic(chats, appointments))
    }

    constructor()
      ensures chats == map[] && appointments == map[] && Valid()
    {
      chats := map[];
      appointments := map[];
    }

    /** `POST /assess`: classifies the form, keeps the whitelisted names of the model's
        medicine list (the whitelist iterated in `order`) with their records, and stores
        the assessment under `newId`. `advice` and `medsRaw` are the model's answers. */
    method Assess(caller: Caller, age: Json, symptoms: Field, duration: Json, allergies: Field, conditions: Field,
                  advice: string, medsRaw: string, order: seq<string>, newId: Id)
      returns (r: Result<AssessReply, Status>)
      requires IsWhitelistOrder(order)
      requires newId !in chats
      modifies this
      ensures r.Err? <==> symptoms.OrEmpty() == ""
      ensures r.Err? ==> r.error == BadRequest && chats == old(chats)
      ensures r.Ok? ==>
        && r.value.assessmentId == newId
        && r.value.advice == advice && r.value.medsRaw == medsRaw
        && r.value.severity == AssessSeverity(age, symptoms.OrEmpty(), duration.OrEmpty(), allergies.OrEmpty(), conditions.OrEmpty())
        && r.value.suggested == ExtractedNames(medsRaw, order)
        && (forall m :: m in r.value.details <==> m in r.value.suggested)
        && (forall m | m in r.value.details :: GetMedicineInfo(m) == Some(r.value.details[m]))
        && chats == old(chats)[newId := ChatDoc(Some(caller.id), None, None, None, None, Some(AssessmentRecord(
             Form(age, symptoms.OrEmpty(), duration.OrEmpty(), allergies.OrEmpty(), conditions.OrEmpty()),
             r.value.severity, advice, medsRaw, r.value.suggested, r.value.details)), NoKeys)]
      ensures appointments == old(appointments)
    {
      var s := symptoms.OrEmpty();
      var d := duration.OrEmpty();
      var a := allergies.OrEmpty();
      var cond := conditions.OrEmpty();
      if s == "" {
        return Err(BadRequest);
      }
      var severity := AssessSeverity(age, s, d, a, cond);
      var validated := ExtractValidMeds(medsRaw, order);
      var details := MedicineDetails(validated);
      ExtractedAreWhitelisted(medsRaw, order);
      DetailsCoverWhitelisted(validated);
      var record := AssessmentRecord(Form(age, s, d, a, cond), severity, advice, medsRaw, validated, details);
      chats := chats[newId := ChatDoc(Some(caller.id), None, None, None, None, Some(record), NoKeys)];
      r := Ok(AssessReply(newId, severity, advice, validated, details, medsRaw));
    }

    /** `create_appointment()`; `newId` is the id the database assigns. */
    method CreateAppointment(caller: Caller, assessmentId: Field, desiredDate: Json, notes: Option<Json>, newId: Id)
      returns (r: Result<Id, Status>)
      requires Valid()
      requires newId !in appointments
      modifies this
      ensures (r, Clinic(chats, appointments)) == CreateAppointmentResult(Clinic(old(chats), old(appointments)), caller, assessmentId, desiredDate, notes, newId)
      ensures Valid()
    {
      CreateKeepsInvariant(Clinic(chats, appointments), caller, assessmentId, desiredDate, notes, newId);
      if !assessmentId.Truthy() {
        return Err(BadRequest);
      }
      var aid := ParseObjectId(assessmentId.s);
      if aid.None? {
        return Err(BadRequest);
      }
      if !(aid.value in chats && chats[aid.value].userId == Some(caller.id) && chats[aid.value].assessment.Some?) {
        return Err(NotFound);
      }
      var a := chats[aid.value].assessment.value;
      if a.severity != Critical && a.severity != Urgent {
        return Err(Forbidden);
      }
      var snapshot := Snapshot(a.form, a.severity, a.advice, assessmentId.s);
      appointments := appointments[newId := Appointment(caller.id, assessmentId.s, snapshot, desiredDate, NotesOrEmpty(notes), "pending", None)];
      r := Ok(newId);
    }

    /** `update_appointment_status()`; `newChatId` is the id of the note message, if one is written. */
    method UpdateAppointmentStatus(caller: Caller, appointmentId: string, status: Field, note: Field, newChatId: Id)
      returns (r: Result<(), Status>)
      requires Valid()
      requires newChatId !in chats
      modifies this
      ensures (r, Clinic(chats, appointments)) == UpdateStatusResult(Clinic(old(chats), old(appointments)), caller, appointmentId, status, note, newChatId)
      ensures Valid()
    {
      UpdateStatusKeepsInvariant(Clinic(chats, appointments), caller, appointmentId, status, note, newChatId);
      if status != Given("accepted") && status != Given("declined") {
        return Err(BadRequest);
      }
      var id := ParseObjectId(appointmentId);
      if id.None? {
        return Err(BadRequest);
      }
      if id.value !in appointments {
        return Err(NotFound);
      }
      var appt := appointments[id.value];
      appointments := appointments[id.value := appt.(status := status.s, note := Some(note.GetOr("")))];
      if status.s == "accepted" && note.Truthy() {
        chats := chats[newChatId := DoctorNote(appt.patientId, note.s, caller.id)];
      }
      r := Ok(());
    }

    /** `update_message()`. */
    method UpdateMessage(caller: Caller, messageId: string, newQuestion: Field, rerun: Json, generate: (string, string, ModelLoader.Context) -> string)
      returns (r: Result<(), Status>)
      requires Valid()
      modifies this
      ensures (r, Clinic(chats, appointments)) == UpdateMessageResult(Clinic(old(chats), old(appointments)), caller, messageId, newQuestion, rerun, generate)
      ensures Valid()
    {
      var id := ParseObjectId(messageId);
      if id.None? {
        return Err(BadRequest);
      }
      if id.value !in chats {
        return Err(NotFound);
      }
      var doc := chats[id.value];
      if !MayModify(doc, caller) {
        return Err(Forbidden);
      }
      var updated := doc;
      var changed := false;
      if newQuestion.Given? {
        updated := updated.(question := Some(newQuestion.s));
        changed := true;
      }
      if rerun.Truthy() {
        var answer := generate(RerunQuestion(newQuestion, doc), RoleOrPatient(caller.role), doc.context);
        updated := updated.(answer := Some(answer));
        changed := true;
      }
      if changed {
        chats := chats[id.value := updated];
      }
      r := Ok(());
    }

    /** `delete_message()`. */
    method DeleteMessage(caller: Caller, messageId: string) returns (r: Result<(), Status>)
      requires Valid()
      modifies this
      ensures (r, Clinic(chats, appointments)) == DeleteMessageResult(Clinic(old(chats), old(appointments)), caller, messageId)
      ensures Valid()
    {
      var id := ParseObjectId(messageId);
      if id.None? {
        return Err(BadRequest);
      }
      if id.value !in chats {
        return Err(NotFound);
      }
      if !MayModify(chats[id.value], caller) {
        return Err(Forbidden);
      }
      chats := chats - {id.value};
      r := Ok(());
    }
  }

  // ---------------------------------------------------------------- properties

  /** A request is 400 without an assessment id or with one `ObjectId` rejects, 404 unless
      it names an assessment of the caller, 403 for a non-urgent one; otherwise exactly one
      pending appointment of the caller is added, with the assessment's severity. Nothing
      changes on an error, and the chats never change. */
  lemma CreateAppointmentOutcomes(c: Clinic, caller: Caller, assessmentId: Field, desiredDate: Json, notes: Option<Json>, newId: Id)
    requires newId !in c.appointments
    ensures var (r, c') := CreateAppointmentResult(c, caller, assessmentId, desiredDate, notes, newId);
            var aid := if assessmentId.Truthy() then ParseObjectId(assessmentId.s) else None;
            && (r == Err(BadRequest) <==> aid.None?)
            && (r == Err(NotFound) <==> aid.Some? && !OwnAssessment(c.chats, aid.value, caller.id))
            && (r == Err(Forbidden) <==> aid.Some? && OwnAssessment(c.chats, aid.value, caller.id)
                                         && c.chats[aid.value].assessment.value.severity == NonUrgent)
            && (r.Err? ==> c' == c)
            && c'.chats == c.chats
            && (r.Ok? ==>
                  && c'.appointments.Keys == c.appointments.Keys + {newId}
                  && |c'.appointments| == |c.appointments| + 1
                  && c'.appointments[newId].status == "pending"
                  && c'.appointments[newId].patientId == caller.id
                  && c'.appointments[newId].desiredDate == desiredDate
                  && (notes.None? ==> c'.appointments[newId].notes == JStr(""))
                  && (notes.Some? ==> c'.appointments[newId].notes == notes.value)
                  && c'.appointments[newId].snapshot.severity == c.chats[aid.value].assessment.value.severity
                  && (forall id | id in c.appointments && id != newId :: c'.appointments[id] == c.appointments[id]))
  {
  }

  lemma CreateKeepsInvariant(c: Clinic, caller: Caller, assessmentId: Field, desiredDate: Json, notes: Option<Json>, newId: Id)
    requires ClinicInvariant(c)
    ensures ClinicInvariant(CreateAppointmentResult(c, caller, assessmentId, desiredDate, notes, newId).1)
  {
  }

  /** A decision other than accepted or declined is 400 and changes nothing. Otherwise the
      status and note are overwritten whatever the status was, and a message to the
      patient is added exactly when the appointment is accepted with a non-empty note. */
  lemma UpdateStatusOutcomes(c: Clinic, caller: Caller, appointmentId: string, status: Field, note: Field, newChatId: Id)
    requires newChatId !in c.chats
    ensures var (r, c') := UpdateStatusResult(c, caller, appointmentId, status, note, newChatId);
            var id := ParseObjectId(appointmentId);
            && (status != Given("accepted") && status != Given("declined") ==> r == Err(BadRequest) && c' == c)
            && (r.Err? ==> c' == c)
            && (r.Ok? <==> (status == Given("accepted") || status == Given("declined")) && id.Some? && id.value in c.appointments)
            && (r.Ok? ==>
                  && c'.appointments.Keys == c.appointments.Keys
                  && c'.appointments[id.value].status == status.s
                  && c'.appointments[id.value].note == Some(if note.Missing? then Given("") else note)
                  && c'.appointments[id.value].snapshot == c.appointments[id.value].snapshot
                  && (c'.chats != c.chats <==> status.s == "accepted" && note.Truthy())
                  && (c'.chats != c.chats ==>
                        && |c'.chats| == |c.chats| + 1
                        && c'.chats == c.chats[newChatId := DoctorNote(c.appointments[id.value].patientId, note.s, caller.id)]))
  {
    var (r, c') := UpdateStatusResult(c, caller, appointmentId, status, note, newChatId);
    if r.Ok? && status.s == "accepted" && note.Truthy() {
      assert newChatId in c'.chats;
    }
  }

  /** A decided appointment can be decided again: a declined request can later be accepted. */
  lemma DecisionIsNotFinal(c: Clinic, caller: Caller, appointmentId: string, newChatId: Id)
    requires ParseObjectId(appointmentId).Some? && ParseObjectId(appointmentId).value in c.appointments
    requires c.appointments[ParseObjectId(appointmentId).value].status == "declined"
    ensures var (r, c') := UpdateStatusResult(c, caller, appointmentId, Given("accepted"), Given(""), newChatId);
            r.Ok? && c'.appointments[ParseObjectId(appointmentId).value].status == "accepted"
  {
  }

  lemma UpdateStatusKeepsInvariant(c: Clinic, caller: Caller, appointmentId: string, status: Field, note: Field, newChatId: Id)
    requires ClinicInvariant(c)
    ensures ClinicInvariant(UpdateStatusResult(c, caller, appointmentId, status, note, newChatId).1)
  {
  }

  /** Doctors read every assessment; anyone else only an assessment stored under their id. */
  lemma ReadAssessmentPermission(chats: map<Id, ChatDoc>, caller: Caller, assessmentId: string)
    requires ValidId(caller.id)
    requires ParseObjectId(assessmentId).Some?
    requires ParseObjectId(assessmentId).value in chats
    requires chats[ParseObjectId(assessmentId).value].assessment.Some?
    ensures var doc := chats[ParseObjectId(assessmentId).value];
            ReadAssessmentResult(chats, caller, assessmentId).Ok? <==>
              caller.role == Given("doctor") || doc.userId == Some(caller.id)
  {
    IdIsNotNone(caller.id);
  }

  /** A message may be changed by its owner or by the doctor who wrote it, and by nobody else. */
  lemma MayModifyCases(doc: ChatDoc, caller: Caller)
    requires ValidId(caller.id)
    ensures MayModify(doc, caller) <==>
      doc.userId == Some(caller.id)
      || (caller.role == Given("doctor") && doc.fromRole == Some("doctor") && doc.doctorId == Some(caller.id))
  {
    IdIsNotNone(caller.id);
  }

  /** The patient a doctor's note is addressed to owns it, and may edit or delete it. */
  lemma PatientMayEditDoctorNote(patientId: Id, note: string, doctorId: Id, role: Field)
    ensures MayModify(DoctorNote(patientId, note, doctorId), Caller(patientId, role))
  {
  }

  /** A doctor may not change another doctor's note. */
  lemma DoctorMayNotEditOthersNote(patientId: Id, note: string, doctorId: Id, otherDoctor: Id)
    requires otherDoctor != doctorId && otherDoctor != patientId
    ensures !MayModify(DoctorNote(patientId, note, doctorId), Caller(otherDoctor, Given("doctor")))
  {
  }

  /** Editing and deleting are refused (403) to anyone who may not change the message,
      and then nothing changes; a permitted delete removes exactly that message. */
  lemma ModifyPermission(c: Clinic, caller: Caller, messageId: string, newQuestion: Field, rerun: Json,
                         generate: (string, string, ModelLoader.Context) -> string)
    requires ParseObjectId(messageId).Some? && ParseObjectId(messageId).value in c.chats
    ensures var id := ParseObjectId(messageId).value;
            var (u, cu) := UpdateMessageResult(c, caller, messageId, newQuestion, rerun, generate);
            var (d, cd) := DeleteMessageResult(c, caller, messageId);
            && (u == Err(Forbidden) <==> !MayModify(c.chats[id], caller))
            && (d == Err(Forbidden) <==> !MayModify(c.chats[id], caller))
            && (u.Err? ==> cu == c)
            && (d.Err? ==> cd == c)
            && (d.Ok? ==> cd.chats.Keys == c.chats.Keys - {id} && cd.appointments == c.appointments)
  {
  }

  /** An edit changes only that message's question and answer, and only as asked. */
  lemma UpdateMessageChanges(c: Clinic, caller: Caller, messageId: string, newQuestion: Field, rerun: Json,
                             generate: (string, string, ModelLoader.Context) -> string)
    ensures var (r, c') := UpdateMessageResult(c, caller, messageId, newQuestion, rerun, generate);
            && c'.appointments == c.appointments
            && (r.Ok? ==>
                  var id := ParseObjectId(messageId).value;
                  var doc := c.chats[id];
                  && c'.chats.Keys == c.chats.Keys
                  && (forall other | other in c.chats && other != id :: c'.chats[other] == c.chats[other])
                  && c'.chats[id] == doc.(question := c'.chats[id].question, answer := c'.chats[id].answer)
                  && c'.chats[id].question == (if newQuestion.Given? then Some(newQuestion.s) else doc.question)
                  && (!rerun.Truthy() ==> c'.chats[id].answer == doc.answer)
                  && (rerun.Truthy() ==>
                        c'.chats[id].answer == Some(generate(RerunQuestion(newQuestion, doc), RoleOrPatient(caller.role), doc.context))))
  {
  }

  /** Deleting an assessment is allowed to its owner and leaves the appointments made
      from it in place. */
  lemma AppointmentOutlivesAssessment(c: Clinic, caller: Caller, messageId: string)
    requires ParseObjectId(messageId).Some?
    requires OwnAssessment(c.chats, ParseObjectId(messageId).value, caller.id)
    ensures var (r, c') := DeleteMessageResult(c, caller, messageId);
            r.Ok? && ParseObjectId(messageId).value !in c'.chats && c'.appointments == c.appointments
  {
  }
}
