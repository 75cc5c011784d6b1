/**
 * The persistent list store (utils/storage.py): an ordered list of records
 * kept in one JSON file that every save rewrites whole. The file is modelled
 * by what a reader would find in it, not by its bytes.
 */
module Storage {
  import opened Python

  /** What the store's file holds. */
  datatype FileState =
    | Missing                       // no file at the store's path
    | Corrupt                       // a file whose text is not valid JSON
    | Holds(records: seq<Record>)   // a JSON array of objects

  /** What `load` returns for a file in state `f`: a missing or corrupt file reads as empty. */
  function Loaded(f: FileState): (data: seq<Record>)
    ensures f.Holds? ==> data == f.records
    ensures data != [] ==> f == Holds(data)
  {
    if f.Holds? then f.records else []
  }

  /** A StorageManager bound to one file path. */
  class Store {
    var file: FileState

    /** Binds the store to a file found in state `initial` and makes sure the file exists. */
    constructor (initial: FileState)
      ensures initial.Missing? ==> file == Holds([])
      ensures !initial.Missing? ==> file == initial
    {
      file := initial;
      new;
      EnsureFileExists();
    }

    /** Writes an empty array when there is no file; an existing file, even a corrupt one, is kept. */
    method EnsureFileExists()
      modifies this
      ensures old(file).Missing? ==> file == Holds([])
      ensures !old(file).Missing? ==> file == old(file)
    {
      if file.Missing? {
        file := Holds([]);
      }
    }

    /** Reads the list back; a missing or corrupt file gives the empty list instead of an error. */
    method Load() returns (data: seq<Record>)
      ensures file.Holds? ==> data == file.records
      ensures !file.Holds? ==> data == []
      ensures data == Loaded(file)
    {
      match file
      case Holds(records) => data := records;
      case Missing => data := [];
      case Corrupt => data := [];
    }

    /** Overwrites the whole file with `data`, so that the next Load returns `data`. */
    method Save(data: seq<Record>)
      modifies this
      ensures file == Holds(data)
      ensures Loaded(file) == data
    {
      file := Holds(data);
    }

    /** The same as saving the empty list. */
    method Clear()
      modifies this
      ensures file == Holds([])
      ensures Loaded(file) == []
    {
      Save([]);
    }
  }
}
