/** The history documents and their repository: a collection of documents keyed by id,
    with the derived query by patient id. */
module HistoryStore {
  import opened Wrappers

  /** Java `int`. */
  type Int32 = x: int | -0x8000_0000 <= x < 0x8000_0000

  /** A history note. The id is null until the store assigns one; note and patient are
      nullable strings. */
  datatype History = History(id: Option<string>, patId: Int32, note: Option<string>, patient: Option<string>)

  /** What the store and the service can raise. */
  datatype StoreError =
    | DuplicateKey(key: string)     // an insert under an id that is taken
    | DataAccessFailure             // the database refused or could not be reached
    | IllegalArgument(missing: string)  // deletion of an id that is not stored

  class HistoryRepository {
    /** The `history` collection, by id. */
    var documents: map<string, History>

    /** Every document is stored under its own id. */
    ghost predicate Valid()
      reads this
    {
      forall id :: id in documents ==> documents[id].id == Some(id)
    }

    /** The stored notes of one patient. */
    ghost function RecordsOf(patId: Int32): set<History>
      reads this
    {
      set id | id in documents && documents[id].patId == patId :: documents[id]
    }

    constructor ()
      ensures Valid() && documents == map[]
    {
      documents := map[];
    }

    /** `findByPatId`: every stored note of the patient, each document once. */
    method FindByPatId(patId: Int32) returns (found: seq<History>)
      requires Valid()
      ensures forall h :: h in found <==> h in documents.Values && h.patId == patId
      ensures forall i, j :: 0 <= i < j < |found| ==> found[i].id != found[j].id
    {
      found := [];
      var pending := documents.Keys;
      while pending != {}
        invariant pending <= documents.Keys
        invariant forall h :: h in found ==>
          h in documents.Values && h.patId == patId && h.id.Some? && h.id.value !in pending
        invariant forall id :: id in documents && id !in pending && documents[id].patId == patId ==>
          documents[id] in found
        invariant forall i, j :: 0 <= i < j < |found| ==> found[i].id != found[j].id
        decreases pending
      {
        var id :| id in pending;
        var h := documents[id];
        if h.patId == patId {
          found := found + [h];
        }
        pending := pending - {id};
      }
    }

    /** `findById`: the document stored under the id, if any. */
    method FindById(id: string) returns (r: Option<History>)
      requires Valid()
      ensures r.None? <==> forall h :: h in documents.Values ==> h.id != Some(id)
      ensures r.Some? ==> r.value in documents.Values && r.value.id == Some(id)
    {
      if id in documents {
        r := Some(documents[id]);
      } else {
        r := None;
        assert forall h :: h in documents.Values ==> h.id != Some(id);
      }
    }

    /** `existsById`. */
    method ExistsById(id: string) returns (b: bool)
      requires Valid()
      ensures b <==> exists h :: h in documents.Values && h.id == Some(id)
    {
      b := id in documents;
      if b {
        assert documents[id] in documents.Values;
      }
    }

    /** `save`: an entity with an id replaces the document under that id; one without
        is inserted under the id the database generates, which fails when it is taken.
        A database failure changes nothing. */
    method Save(entity: History, generatedId: string, dbFailure: bool) returns (r: Result<History, StoreError>)
      requires Valid()
      modifies this
      ensures Valid()
      ensures dbFailure ==> r == Err(DataAccessFailure) && documents == old(documents)
      ensures !dbFailure && entity.id.Some? ==>
        r == Ok(entity) && documents == old(documents)[entity.id.value := entity]
      ensures !dbFailure && entity.id.None? && generatedId in old(documents) ==>
        r == Err(DuplicateKey(generatedId)) && documents == old(documents)
      ensures !dbFailure && entity.id.None? && generatedId !in old(documents) ==>
        r == Ok(entity.(id := Some(generatedId))) && documents == old(documents)[generatedId := r.value]
    {
      if dbFailure {
        r := Err(DataAccessFailure);
      } else if entity.id.Some? {
        documents := documents[entity.id.value := entity];
        r := Ok(entity);
      } else if generatedId in documents {
        r := Err(DuplicateKey(generatedId));
      } else {
        var saved := entity.(id := Some(generatedId));
        documents := documents[generatedId := saved];
        r := Ok(saved);
      }
    }

    /** `deleteById`: removes the document under the id, if any. */
    method DeleteById(id: string)
      requires Valid()
      modifies this
      ensures Valid()
      ensures documents == old(documents) - {id}
    {
      documents := documents - {id};
    }
  }
}
