/**
  The question/answer store shared by the server (app.js) and the console
  program (app-basic.js): the file database.json holding `{ data: [...] }`,
  read by loadDatabase and rewritten in full by saveToDatabase. Both programs
  carry identical copies of these two functions.
 */
module Store {

  datatype Option<T> = None | Some(value: T)

  /** One cached pair, `{ question, answer }`. */
  datatype QAEntry = QAEntry(question: string, answer: string)

  /** The parsed content of database.json, `{ data: [...] }`. */
  datatype Database = Database(data: seq<QAEntry>)

  /** What reading and parsing database.json yields: either the parsed
      object, or a failure (file missing, unreadable, or not JSON). */
  datatype FileState = Unreadable | Parsed(db: Database)

  /** The database that loadDatabase returns for a given file state. */
  function Load(file: FileState): Database
  {
    match file
    case Unreadable => Database([])
    case Parsed(db) => db
  }

  /** The file after saveToDatabase appended one entry: the loaded data
      plus the entry, written back in full. */
  function Append(file: FileState, entry: QAEntry): FileState
  {
    Parsed(Database(Load(file).data + [entry]))
  }

  /** The file after several saveToDatabase calls, in order. */
  function AppendAll(file: FileState, entries: seq<QAEntry>): FileState
    decreases |entries|
  {
    if entries == [] then file
    else Append(AppendAll(file, entries[..|entries| - 1]), entries[|entries| - 1])
  }

  /** Round trip: saving entries and loading again gives the earlier
      entries, unchanged and in order, followed by the new ones. A file that
      could not be read counts as empty and is replaced. */
  lemma {:induction false} AppendAllThenLoad(file: FileState, entries: seq<QAEntry>)
    ensures Load(AppendAll(file, entries)).data == Load(file).data + entries
    ensures entries != [] ==> AppendAll(file, entries).Parsed?
    decreases |entries|
  {
    if entries != [] {
      var init := entries[..|entries| - 1];
      AppendAllThenLoad(file, init);
      assert entries == init + [entries[|entries| - 1]];
    }
  }

  /** database.json as the state both programs share. */
  class DatabaseFile {
    var file: FileState

    constructor (file: FileState)
      ensures this.file == file
    {
      this.file := file;
    }

    /** The entries a load would return now. */
    function Contents(): seq<QAEntry>
      reads this
    {
      Load(file).data
    }

    /** loadDatabase: never fails; a read or parse failure yields `{ data: [] }`. */
    method LoadDatabase() returns (db: Database)
      ensures file.Unreadable? ==> db.data == []
      ensures file.Parsed? ==> db == file.db
    {
      match file
      case Unreadable =>
        db := Database([]);
      case Parsed(parsed) =>
        db := parsed;
    }

    /** saveToDatabase: reload, push one entry, rewrite the whole file. */
    method SaveToDatabase(question: string, answer: string)
      modifies this
      ensures file == Append(old(file), QAEntry(question, answer))
      ensures file.Parsed?
      ensures Contents() == old(Contents()) + [QAEntry(question, answer)]
    {
      var db := LoadDatabase();
      db := db.(data := db.data + [QAEntry(question, answer)]);
      file := Parsed(db);
    }
  }
}
