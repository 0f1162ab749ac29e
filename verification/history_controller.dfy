/** The REST controller for patient history: maps service results to HTTP statuses. */
module Controllers {
  import opened Wrappers
  import opened HistoryStore
  import opened HistoryServices
  import opened HttpStatus

  datatype ResponseEntity<T> = ResponseEntity(status: int, body: Option<T>)

  /** The answer to a history listing: 204 without a body for no notes, otherwise
      200 with exactly the list. */
  function HistoryListResponse(histories: seq<History>): (response: ResponseEntity<seq<History>>)
    ensures response.status == SC_NO_CONTENT <==> histories == []
    ensures response.status == SC_NO_CONTENT ==> response.body.None?
    ensures response.status != SC_NO_CONTENT ==> response.status == SC_OK && response.body == Some(histories)
  {
    if histories == [] then ResponseEntity(SC_NO_CONTENT, None) else ResponseEntity(SC_OK, Some(histories))
  }

  class HistoryController {
    const historyService: HistoryService

    constructor (historyService: HistoryService)
      ensures this.historyService == historyService
    {
      this.historyService := historyService;
    }

    /** `GET /api/history/{patientId}`: 204 when the patient has no stored note, otherwise
        200 with exactly the patient's notes. */
    method GetPatientHistory(patientId: Int32) returns (response: ResponseEntity<seq<History>>)
      requires historyService.repository.Valid()
      ensures response.status == SC_NO_CONTENT <==> historyService.repository.RecordsOf(patientId) == {}
      ensures response.status == SC_NO_CONTENT ==> response.body.None?
      ensures response.status != SC_NO_CONTENT ==>
        && response.status == SC_OK && response.body.Some?
        && (set h | h in response.body.value) == historyService.repository.RecordsOf(patientId)
        && forall i, j :: 0 <= i < j < |response.body.value| ==> response.body.value[i].id != response.body.value[j].id
    {
      var histories := historyService.GetHistoryByPatientId(patientId);
      if histories != [] {
        assert histories[0] in historyService.repository.RecordsOf(patientId);
      }
      response := HistoryListResponse(histories);
    }

    /** `POST /api/history/{patientId}/add`: hands the path id and the body to the
        service unchanged; 200 when it completes, 500 for any exception it raises. */
    method AddNoteToPatientHistory(patientId: Int32, note: History, generatedId: string, dbFailure: bool)
      returns (response: ResponseEntity<()>)
      requires historyService.repository.Valid()
      modifies historyService.repository
      ensures historyService.repository.Valid()
      ensures response.body.None?
      ensures response.status == SC_OK || response.status == SC_INTERNAL_SERVER_ERROR
      ensures response.status == SC_INTERNAL_SERVER_ERROR <==>
        dbFailure || (note.id.None? && generatedId in old(historyService.repository.documents))
      ensures response.status == SC_INTERNAL_SERVER_ERROR ==>
        historyService.repository.documents == old(historyService.repository.documents)
      ensures response.status == SC_OK ==>
        // the note, filed under the patient, keeps its own id or receives the generated one
        var saved := note.(patId := patientId, id := Some(if note.id.Some? then note.id.value else generatedId));
        && saved in historyService.repository.RecordsOf(patientId)
        && historyService.repository.documents == old(historyService.repository.documents)[saved.id.value := saved]
    {
      var outcome := historyService.AddNoteToPatientHistory(patientId, note, generatedId, dbFailure);
      match outcome
      case Ok(_) =>
        response := ResponseEntity(SC_OK, None);
      case Err(_) =>
        response := ResponseEntity(SC_INTERNAL_SERVER_ERROR, None);
    }
  }

}
