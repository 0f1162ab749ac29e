/** The history service and its REST controller over the repository. */
module HistoryServices {
  import opened Wrappers
  import opened HistoryStore

  class HistoryService {
    const repository: HistoryRepository

    constructor (repository: HistoryRepository)
      ensures this.repository == repository
    {
      this.repository := repository;
    }

    /** Exactly the stored notes of the patient, each document once. */
    method GetHistoryByPatientId(patientId: Int32) returns (histories: seq<History>)
      requires repository.Valid()
      ensures (set h | h in histories) == repository.RecordsOf(patientId)
      ensures forall i, j :: 0 <= i < j < |histories| ==> histories[i].id != histories[j].id
    {
      histories := repository.FindByPatId(patientId);
    }

    /** Files the note under the patient, whatever patient id it carried, and saves it.
        On success the saved note (with the id it was stored under) is among the
        patient's notes and nothing else changed. */
    method AddNoteToPatientHistory(patientId: Int32, note: History, generatedId: string, dbFailure: bool)
      returns (r: Result<History, StoreError>)
      requires repository.Valid()
      modifies repository
      ensures repository.Valid()
      ensures r.Ok? ==>
        && r.value.patId == patientId
        && r.value.note == note.note && r.value.patient == note.patient
        && (note.id.Some? ==> r.value.id == note.id)
        && (note.id.None? ==> r.value.id == Some(generatedId))
        && repository.documents == old(repository.documents)[r.value.id.value := r.value]
        && r.value in repository.RecordsOf(patientId)
      ensures r.Err? ==> repository.documents == old(repository.documents)
      ensures r.Err? <==> dbFailure || (note.id.None? && generatedId in old(repository.documents))
    {
      var filed := note.(patId := patientId);
      r := repository.Save(filed, generatedId, dbFailure);
      if r.Ok? {
        assert repository.documents[r.value.id.value] == r.value;
      }
    }

    /** Saves or replaces the record; afterwards it can be found by its id. */
    method SaveHistory(history: History, generatedId: string, dbFailure: bool)
      returns (r: Result<History, StoreError>)
      requires repository.Valid()
      modifies repository
      ensures repository.Valid()
      ensures r.Ok? ==>
        && r.value.id.Some? && (history.id.Some? ==> r.value == history)
        && (history.id.None? ==> r.value == history.(id := Some(generatedId)))
        && repository.documents == old(repository.documents)[r.value.id.value := r.value]
      ensures r.Err? ==> repository.documents == old(repository.documents)
      ensures r.Err? <==> dbFailure || (history.id.None? && generatedId in old(repository.documents))
    {
      r := repository.Save(history, generatedId, dbFailure);
    }

    /** Empty exactly when no stored record has the id. */
    method GetHistoryById(id: string) returns (r: Option<History>)
      requires repository.Valid()
      ensures r.None? <==> forall h :: h in repository.documents.Values ==> h.id != Some(id)
      ensures r.Some? ==> r.value in repository.documents.Values && r.value.id == Some(id)
    {
      r := repository.FindById(id);
    }

    /** Refuses an id that is not stored, leaving the store as it was; otherwise removes
        exactly that record. */
    method DeleteHistoryById(id: string) returns (r: Result<(), StoreError>)
      requires repository.Valid()
      modifies repository
      ensures repository.Valid()
      ensures r.Err? <==> id !in old(repository.documents)
      ensures r.Err? ==> r.error == IllegalArgument(id) && repository.documents == old(repository.documents)
      ensures r.Ok? ==> repository.documents == old(repository.documents) - {id}
    {
      var stored := repository.ExistsById(id);
      if !stored {
        r := Err(IllegalArgument(id));
        return;
      }
      repository.DeleteById(id);
      r := Ok(());
    }
  }

  /** A note added for a patient is listed for that patient afterwards. */
  method AddedNoteIsListed(service: HistoryService, patientId: Int32, note: History, generatedId: string)
    returns (added: History, listed: seq<History>)
    requires service.repository.Valid()
    requires note.id.Some? || generatedId !in service.repository.documents
    modifies service.repository
    ensures added == note.(patId := patientId, id := Some(if note.id.Some? then note.id.value else generatedId))
    ensures added in listed
  {
    var outcome := service.AddNoteToPatientHistory(patientId, note, generatedId, false);
    added := outcome.value;
    listed := service.GetHistoryByPatientId(patientId);
  }

  /** A saved record can be fetched by its id afterwards. */
  method SavedRecordIsFound(service: HistoryService, history: History, generatedId: string)
    returns (saved: History, found: Option<History>)
    requires service.repository.Valid()
    requires history.id.Some? || generatedId !in service.repository.documents
    modifies service.repository
    ensures saved == if history.id.Some? then history else history.(id := Some(generatedId))
    ensures saved.id.Some? && found == Some(saved)
  {
    var outcome := service.SaveHistory(history, generatedId, false);
    saved := outcome.value;
    found := service.GetHistoryById(saved.id.value);
  }
}
