/** The file handlers: upload metadata, list, look up, delete and filter by
    course class, as operations on an in-memory table of file records. The
    file bytes on disk are not part of the model. */
module FileController {
  import opened Common
  import opened JsText

  /** What the upload middleware hands over for the uploaded file. */
  datatype UploadedFile = UploadedFile(originalname: string, path: string, mimetype: string, size: nat)

  /** A stored file row. */
  datatype FileRecord = FileRecord(
    id: int,
    filename: string,
    path: string,
    mimetype: string,
    size: nat,
    userId: int,
    courseClassID: int)

  datatype Body =
    | ErrorBody(error: string)
    | MessageBody(message: string)
    | RecordJson(file: FileRecord)
    | RecordList(files: seq<FileRecord>)

  /** A handler answers with JSON, streams a stored file, or passes a thrown
      error to `next`. */
  datatype Reply = Json(status: int, body: Body) | SendFile(path: string) | ThrownToNext

  /** Ascending ids: the order the model assumes the store hands rows out
      in. The queries carry no `orderBy`, so the database does not promise it. */
  predicate Ascending(files: seq<FileRecord>)
  {
    forall i, j :: 0 <= i < j < |files| ==> files[i].id < files[j].id
  }

  /** The `where: { filename, userId }` filter. */
  predicate Owned(f: FileRecord, filename: string, userId: int)
  {
    f.filename == filename && f.userId == userId
  }

  /** `findFirst` by filename and owner: the position of the first row that
      matches, or `None` when no row does. */
  function FindFirst(files: seq<FileRecord>, filename: string, userId: int): (r: Option<nat>)
    ensures r.Some? ==> r.value < |files| && Owned(files[r.value], filename, userId)
    ensures r.Some? ==> forall j :: 0 <= j < r.value ==> !Owned(files[j], filename, userId)
    ensures r.None? ==> forall j :: 0 <= j < |files| ==> !Owned(files[j], filename, userId)
    decreases |files|
  {
    if files == [] then None
    else if Owned(files[0], filename, userId) then Some(0)
    else
      match FindFirst(files[1..], filename, userId)
      case None => None
      case Some(k) => Some(k + 1)
  }

  /** `delete({ where: { id } })`: drops every row with that id. */
  function RemoveById(files: seq<FileRecord>, id: int): (r: seq<FileRecord>)
    ensures forall f :: f in r <==> f in files && f.id != id
    ensures |r| <= |files|
    decreases |files|
  {
    if files == [] then []
    else (if files[0].id == id then [] else [files[0]]) + RemoveById(files[1..], id)
  }

  /** With unique ids, deleting the id of the row at position `i` removes
      that row and keeps every other row, in order. */
  lemma {:induction false} RemoveByIdRemovesOne(files: seq<FileRecord>, i: nat)
    requires Ascending(files) && i < |files|
    ensures RemoveById(files, files[i].id) == files[..i] + files[i + 1..]
    decreases |files|
  {
    var id := files[i].id;
    if i == 0 {
      assert RemoveById(files, id) == RemoveById(files[1..], id);
      RemoveAbsentId(files[1..], id);
      assert files[..0] + files[1..] == files[1..];
    } else {
      var tail := files[1..];
      assert files[0].id < id;
      assert RemoveById(files, id) == [files[0]] + RemoveById(tail, id);
      AscendingTail(files);
      assert tail[i - 1] == files[i];
      RemoveByIdRemovesOne(tail, i - 1);
      SpliceAfterHead(files, i);
    }
  }

  lemma SpliceAfterHead(files: seq<FileRecord>, i: nat)
    requires 0 < i < |files|
    ensures [files[0]] + (files[1..][..i - 1] + files[1..][i..]) == files[..i] + files[i + 1..]
  {
    assert files[1..][..i - 1] == files[1..i];
    assert files[1..][i..] == files[i + 1..];
    assert [files[0]] + files[1..i] == files[..i];
  }

  lemma AscendingTail(files: seq<FileRecord>)
    requires Ascending(files) && files != []
    ensures Ascending(files[1..])
  {
  }

  /** Deleting by id keeps exactly the rows with another id. */
  lemma RemoveByIdKeepsOthers(files: seq<FileRecord>, id: int)
    ensures forall f :: f in RemoveById(files, id) <==> f in files && f.id != id
    decreases |files|
  {
  }

  /** Deleting an id that no row has changes nothing. */
  lemma {:induction false} RemoveAbsentId(files: seq<FileRecord>, id: int)
    requires forall j :: 0 <= j < |files| ==> files[j].id != id
    ensures RemoveById(files, id) == files
    decreases |files|
  {
    if files != [] {
      RemoveAbsentId(files[1..], id);
      assert [files[0]] + files[1..] == files;
    }
  }

  /** Removing one row keeps the rest in ascending order. */
  lemma AscendingWithout(files: seq<FileRecord>, i: nat)
    requires Ascending(files) && i < |files|
    ensures Ascending(files[..i] + files[i + 1..])
  {
  }

  /** `findMany({ where: { courseClassID } })`: the rows of that class, in
      table order. */
  function ByClass(files: seq<FileRecord>, classId: int): (r: seq<FileRecord>)
    ensures |r| <= |files|
    ensures forall f :: f in r <==> f in files && f.courseClassID == classId
    ensures Ascending(files) ==> Ascending(r)
    decreases |files|
  {
    if files == [] then []
    else if files[0].courseClassID == classId then [files[0]] + ByClass(files[1..], classId)
    else ByClass(files[1..], classId)
  }

  /** A row uploaded for a class shows up at the end of that class's list,
      and the lists of the other classes do not change. */
  lemma {:induction false} ByClassAfterUpload(files: seq<FileRecord>, f: FileRecord, classId: int)
    ensures ByClass(files + [f], classId)
            == ByClass(files, classId) + (if f.courseClassID == classId then [f] else [])
    decreases |files|
  {
    if files == [] {
      assert files + [f] == [f];
      assert [f][1..] == [];
    } else {
      assert (files + [f])[1..] == files[1..] + [f];
      ByClassAfterUpload(files[1..], f, classId);
    }
  }

  /** The file table. */
  class FileTable {
    var files: seq<FileRecord>
    var nextId: int

    /** Ids come from a counter that starts at 1 and rows are kept in
        ascending id order, so ids are unique. */
    ghost predicate Valid()
      reads this
    {
      && nextId >= 1
      && (forall i :: 0 <= i < |files| ==> 1 <= files[i].id < nextId)
      && Ascending(files)
    }

    constructor ()
      ensures Valid() && files == []
    {
      files := [];
      nextId := 1;
    }

    /** `uploadFile`. Without a file, a `userId` or a `classId` nothing is
        stored. Both ids go through `parseInt`; one that is NaN makes the
        insert throw. Otherwise one row is added that copies the upload's
        metadata. */
    method UploadFile(file: Option<UploadedFile>, userId: Option<string>, classId: Option<string>)
      returns (reply: Reply)
      requires Valid()
      modifies this
      ensures Valid()
      ensures !(file.Some? && Truthy(userId) && Truthy(classId)) ==>
        reply == Json(400, ErrorBody("No file uploaded, user not authenticated, or classId not provided"))
        && files == old(files) && nextId == old(nextId)
      ensures file.Some? && Truthy(userId) && Truthy(classId)
              && (ParseInt(userId.value).None? || ParseInt(classId.value).None?) ==>
        reply == ThrownToNext && files == old(files) && nextId == old(nextId)
      ensures file.Some? && Truthy(userId) && Truthy(classId)
              && ParseInt(userId.value).Some? && ParseInt(classId.value).Some? ==>
        var record := FileRecord(old(nextId), file.value.originalname, file.value.path, file.value.mimetype,
                                 file.value.size, ParseInt(userId.value).value, ParseInt(classId.value).value);
        && reply == Json(201, RecordJson(record))
        && files == old(files) + [record]
        && nextId == old(nextId) + 1
    {
      if file.None? || !Truthy(userId) || !Truthy(classId) {
        return Json(400, ErrorBody("No file uploaded, user not authenticated, or classId not provided"));
      }
      var owner := ParseInt(userId.value);
      var courseClass := ParseInt(classId.value);
      if owner.None? || courseClass.None? {
        return ThrownToNext;
      }
      var record := FileRecord(nextId, file.value.originalname, file.value.path, file.value.mimetype,
                               file.value.size, owner.value, courseClass.value);
      files := files + [record];
      nextId := nextId + 1;
      return Json(201, RecordJson(record));
    }

    /** `listFiles`: every row; an empty table is a 404. */
    method ListFiles() returns (reply: Reply)
      ensures |files| == 0 <==> reply == Json(404, ErrorBody("No files found"))
      ensures |files| > 0 ==> reply == Json(200, RecordList(files))
    {
      if |files| == 0 {
        return Json(404, ErrorBody("No files found"));
      }
      return Json(200, RecordList(files));
    }

    /** `deleteFile`. Only a row with this filename owned by `userId` can be
        deleted; when there is none the table is left alone. Otherwise the
        first such row goes and every other row stays, in order. */
    method DeleteFile(filename: string, userId: int) returns (reply: Reply)
      requires Valid()
      modifies this
      ensures Valid() && nextId == old(nextId)
      ensures FindFirst(old(files), filename, userId).None? ==>
        reply == Json(404, ErrorBody("File not found")) && files == old(files)
      ensures FindFirst(old(files), filename, userId).Some? ==>
        var i := FindFirst(old(files), filename, userId).value;
        reply == Json(200, MessageBody("File deleted successfully"))
        && files == old(files)[..i] + old(files)[i + 1..]
    {
      var found := FindFirst(files, filename, userId);
      if found.None? {
        return Json(404, ErrorBody("File not found"));
      }
      var i := found.value;
      RemoveByIdRemovesOne(files, i);
      AscendingWithout(files, i);
      files := RemoveById(files, files[i].id);
      return Json(200, MessageBody("File deleted successfully"));
    }

    /** `getFile`: the stored file of the row with this filename owned by
        `parseInt(userId)`; otherwise a 404. A NaN owner makes the query throw. */
    method GetFile(userId: string, filename: string) returns (reply: Reply)
      ensures ParseInt(userId).None? ==> reply == ThrownToNext
      ensures ParseInt(userId).Some? && FindFirst(files, filename, ParseInt(userId).value).None? ==>
        reply == Json(404, ErrorBody("File not found"))
      ensures ParseInt(userId).Some? && FindFirst(files, filename, ParseInt(userId).value).Some? ==>
        reply == SendFile(files[FindFirst(files, filename, ParseInt(userId).value).value].path)
      ensures reply.SendFile? ==>
        exists f :: f in files && Owned(f, filename, ParseInt(userId).value) && reply.path == f.path
    {
      var owner := ParseInt(userId);
      if owner.None? {
        return ThrownToNext;
      }
      var found := FindFirst(files, filename, owner.value);
      if found.None? {
        return Json(404, ErrorBody("File not found"));
      }
      return SendFile(files[found.value].path);
    }

    /** `listFilesByClass`: exactly the rows of class `parseInt(classId)`;
        an empty result is a 404. A NaN class makes the query throw. */
    method ListFilesByClass(classId: string) returns (reply: Reply)
      ensures ParseInt(classId).None? ==> reply == ThrownToNext
      ensures ParseInt(classId).Some? ==>
        var c := ParseInt(classId).value;
        && ((forall f :: f in files ==> f.courseClassID != c) <==> reply == Json(404, ErrorBody("No files found")))
        && ((exists f :: f in files && f.courseClassID == c) ==> reply == Json(200, RecordList(ByClass(files, c))))
    {
      var courseClass := ParseInt(classId);
      if courseClass.None? {
        return ThrownToNext;
      }
      var found := ByClass(files, courseClass.value);
      if |found| == 0 {
        return Json(404, ErrorBody("No files found"));
      }
      assert found[0] in found;
      return Json(200, RecordList(found));
    }
  }
}
