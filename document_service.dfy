/** File uploads (`services/document_service.py`): an upload is checked, gets
    a row in the `documents` table, is indexed, and the row records how many
    chunks were indexed. The relational database is a list of row objects;
    a transaction that is not committed leaves that list as it was. */
module Documents {
  import opened Common
  import opened PyStr
  import opened Uuids
  import opened Config
  import opened Haystack

  const PDF_SUFFIX: string := ".pdf"

  /** `FileMetadata(id, filename, upload_date, file_size, chunk_count)` */
  datatype FileMetadata = FileMetadata(
    id: Uuid,
    filename: string,
    uploadDate: string,
    fileSize: nat,
    chunkCount: int)

  /** A row of the `documents` table (`models/database.py`). The database
      fills in `id` and `upload_date` when the row is first written. */
  class DocumentRecord {
    const id: Uuid
    const filename: string
    const uploadDate: string
    const fileSize: nat
    var chunkCount: int

    /** `Document(filename=..., file_size=...)` once flushed: `chunk_count`
        takes its column default, 0. */
    constructor (id: Uuid, filename: string, uploadDate: string, fileSize: nat)
      ensures this.id == id && this.filename == filename
      ensures this.uploadDate == uploadDate && this.fileSize == fileSize
      ensures chunkCount == 0
    {
      this.id := id;
      this.filename := filename;
      this.uploadDate := uploadDate;
      this.fileSize := fileSize;
      chunkCount := 0;
    }
  }

  /** The metadata of one row. */
  function Metadata(d: DocumentRecord): FileMetadata
    reads d
  {
    FileMetadata(d.id, d.filename, d.uploadDate, d.fileSize, d.chunkCount)
  }

  /** The committed contents of the `documents` table, in the order
      `select(Document)` returns them. */
  class Database {
    var rows: seq<DocumentRecord>

    constructor ()
      ensures rows == []
    {
      rows := [];
    }
  }

  /** `[FileMetadata(...) for doc in documents]` */
  function MetadataOf(rows: seq<DocumentRecord>): (files: seq<FileMetadata>)
    reads set d | d in rows
    ensures |files| == |rows|
    ensures forall i :: 0 <= i < |rows| ==> files[i] == Metadata(rows[i])
    decreases |rows|
  {
    if |rows| == 0 then [] else MetadataOf(rows[..|rows| - 1]) + [Metadata(rows[|rows| - 1])]
  }

  /** `get_all_files(db)`: one entry per row, same fields, same order. */
  function GetAllFiles(db: Database): (files: seq<FileMetadata>)
    reads db, set d | d in db.rows
    ensures |files| == |db.rows|
    ensures forall i :: 0 <= i < |files| ==>
              (files[i].id == db.rows[i].id
               && files[i].filename == db.rows[i].filename
               && files[i].uploadDate == db.rows[i].uploadDate
               && files[i].fileSize == db.rows[i].fileSize
               && files[i].chunkCount == db.rows[i].chunkCount)
  {
    MetadataOf(db.rows)
  }

  class DocumentService {
    const settings: Settings
    const haystack: HaystackService

    constructor (settings: Settings, haystack: HaystackService)
      ensures this.settings == settings && this.haystack == haystack
    {
      this.settings := settings;
      this.haystack := haystack;
    }

    /** The number of chunks the indexing of `content` reports. */
    function Indexed(content: seq<byte>, filename: string, id: Uuid): Result<nat> {
      haystack.index(content, IndexMeta(filename, id))
    }

    /** `upload_file(file, db)`, with the id and upload time the database
        assigns given as `newId` and `uploadDate`. The name is checked before
        the size; a failure of the indexing pipeline propagates before the
        commit, so the table is left as it was. */
    method UploadFile(db: Database, filename: string, content: seq<byte>, newId: Uuid, uploadDate: string)
      returns (r: Result<FileMetadata>)
      modifies db
      ensures !EndsWith(filename, PDF_SUFFIX) ==> r == Err(InvalidFileType)
      ensures EndsWith(filename, PDF_SUFFIX) && |content| > settings.maxFileSize ==>
                r == Err(FileTooLarge(settings.maxFileSize))
      ensures EndsWith(filename, PDF_SUFFIX) && |content| <= settings.maxFileSize ==>
                match Indexed(content, filename, newId)
                case Err(e) => r == Err(e)
                case Ok(written) => r == Ok(FileMetadata(newId, filename, uploadDate, |content|, written))
      ensures r.Err? ==> db.rows == old(db.rows)
      ensures r.Ok? ==> |db.rows| == |old(db.rows)| + 1
                        && db.rows[..|old(db.rows)|] == old(db.rows)
                        && fresh(db.rows[|old(db.rows)|])
                        && Metadata(db.rows[|old(db.rows)|]) == r.value
    {
      if !EndsWith(filename, PDF_SUFFIX) {
        return Err(InvalidFileType);
      }
      if |content| > settings.maxFileSize {
        return Err(FileTooLarge(settings.maxFileSize));
      }
      var document := new DocumentRecord(newId, filename, uploadDate, |content|);
      var result := haystack.ProcessDocument(content, filename, document.id);
      if result.Err? {
        return Err(result.error);
      }
      document.chunkCount := result.value.documentsProcessed.GetOr(0);
      db.rows := db.rows + [document];
      r := Ok(FileMetadata(document.id, document.filename, document.uploadDate,
                           document.fileSize, document.chunkCount));
    }
  }

  lemma MetadataOfSnoc(rows: seq<DocumentRecord>, d: DocumentRecord)
    ensures MetadataOf(rows + [d]) == MetadataOf(rows) + [Metadata(d)]
  {
    assert (rows + [d])[..|rows|] == rows;
  }

  /** A successful upload adds exactly its own metadata to the end of the
      listing; a failed one leaves the listing as it was. */
  method UploadThenList(service: DocumentService, db: Database, filename: string, content: seq<byte>,
                        newId: Uuid, uploadDate: string)
    returns (r: Result<FileMetadata>, files: seq<FileMetadata>)
    modifies db
    ensures r.Ok? ==> files == old(GetAllFiles(db)) + [r.value]
    ensures r.Err? ==> files == old(GetAllFiles(db))
  {
    ghost var before := db.rows;
    ghost var listed := GetAllFiles(db);
    r := service.UploadFile(db, filename, content, newId, uploadDate);
    assert MetadataOf(before) == listed;
    if r.Ok? {
      MetadataOfSnoc(before, db.rows[|before|]);
      assert db.rows == before + [db.rows[|before|]];
    }
    files := GetAllFiles(db);
  }
}
