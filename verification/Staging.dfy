/**
 Streaming a multipart upload into a staged temp file (server/handlers_admin.go): what is
 accepted, what is kept, how much is ever read, and that a failed upload leaves nothing.
 */
module Staging {
  import opened Options
  import opened ByteStrings

  const MAX_FIELD_BYTES := 64 * 1024
  const MAX_FIELDS_BYTES := 256 * 1024
  const MAX_PARTS := 100
  const MEDIA := "media"

  // `body` is what the stream delivers before the part ends or, if `fails`, breaks off; for a
  // file part `fails` also stands for a temp file that cannot be created or written.
  datatype Part = Part(name: string, fileName: string, body: Bytes, fails: bool)

  // `breaks`: asking for the part after the last fails instead of finding the end;
  // `rewindFails`: the staged file cannot be rewound.
  datatype Upload = Upload(parts: seq<Part>, breaks: bool, rewindFails: bool)

  predicate IsFile(p: Part) {
    p.fileName != ""
  }

  predicate Known(name: string) {
    name == "title" || name == "description" || name == "language"
  }

  // ---------------------------------------------------------------- what is promised

  function TextBytes(parts: seq<Part>): nat {
    if parts == [] then 0
    else
      var last := parts[|parts| - 1];
      TextBytes(parts[..|parts| - 1]) + if IsFile(last) then 0 else |last.body|
  }

  function Fields(parts: seq<Part>): map<string, Bytes> {
    if parts == [] then map[]
    else
      var last, before := parts[|parts| - 1], Fields(parts[..|parts| - 1]);
      if !IsFile(last) && Known(last.name) then before[last.name := last.body] else before
  }

  predicate PartFine(p: Part) {
    !p.fails && if p.fileName == "" then |p.body| <= 65536 else p.name == "media"
  }

  // Every part is whole, every text small enough, every file the one media file, within
  // the budget for all texts together.
  predicate PartsFine(parts: seq<Part>) {
    && |parts| <= 100
    && TextBytes(parts) <= 262144
    && (forall i | 0 <= i < |parts| :: PartFine(parts[i]))
    && (forall i, j | 0 <= i < j < |parts| :: parts[i].fileName == "" || parts[j].fileName == "")
  }

  // How big the media file is does not matter to what is accepted.
  lemma {:induction false} FileSizeIsFree(parts: seq<Part>, i: nat, body: Bytes)
    requires i < |parts| && parts[i].fileName != ""
    ensures PartsFine(parts[i := parts[i].(body := body)]) <==> PartsFine(parts)
  {
    FileTakesNoBudget(parts, i, body);
    var other := parts[i := parts[i].(body := body)];
    assert forall j | 0 <= j < |parts| :: other[j].fileName == parts[j].fileName && PartFine(other[j]) == PartFine(parts[j]);
    assert forall j | 0 <= j < |parts| :: parts[j].fileName == other[j].fileName && PartFine(parts[j]) == PartFine(other[j]);
  }

  lemma {:induction false} FileTakesNoBudget(parts: seq<Part>, i: nat, body: Bytes)
    requires i < |parts| && parts[i].fileName != ""
    ensures TextBytes(parts[i := parts[i].(body := body)]) == TextBytes(parts)
    decreases |parts|
  {
    var n, other := |parts| - 1, parts[i := parts[i].(body := body)];
    if i == n {
      assert other[..n] == parts[..n];
    } else {
      assert other[..n] == parts[..n][i := parts[i].(body := body)];
      FileTakesNoBudget(parts[..n], i, body);
    }
  }

  // What the upload's file holds, if it has one.
  function Media(parts: seq<Part>): Option<Bytes> {
    if parts == [] then None
    else
      var last := parts[|parts| - 1];
      if IsFile(last) then Some(last.body) else Media(parts[..|parts| - 1])
  }

  lemma {:induction false} MediaIsTheFile(parts: seq<Part>)
    ensures Media(parts).None? ==> forall i | 0 <= i < |parts| :: parts[i].fileName == ""
    ensures Media(parts).Some? ==> exists i | 0 <= i < |parts| :: parts[i].fileName != "" && parts[i].body == Media(parts).value
  {
    if parts == [] {
    } else {
      var before := parts[..|parts| - 1];
      MediaIsTheFile(before);
      assert forall i | 0 <= i < |before| :: before[i] == parts[i];
    }
  }

  predicate Acceptable(u: Upload) {
    PartsFine(u.parts) && !u.breaks && !(u.rewindFails && Media(u.parts).Some?)
  }

  predicate IsText(p: Part, name: string) {
    p.fileName == "" && p.name == name
  }

  // A known name keeps the last text of that name.
  lemma {:induction false} FieldsAreLastValues(parts: seq<Part>, name: string, i: nat)
    requires name in {"title", "description", "language"} && i < |parts| && IsText(parts[i], name)
    requires forall j | i < j < |parts| :: !IsText(parts[j], name)
    ensures name in Fields(parts) && Fields(parts)[name] == parts[i].body
    decreases |parts|
  {
    var n := |parts| - 1;
    if i == n {
    } else {
      assert forall j | 0 <= j < n :: parts[..n][j] == parts[j];
      FieldsAreLastValues(parts[..n], name, i);
      assert !IsText(parts[n], name);
    }
  }

  // Nothing else is kept.
  lemma {:induction false} OnlyKnownTextsKept(parts: seq<Part>, name: string)
    requires name in Fields(parts)
    ensures name in {"title", "description", "language"} && exists i :: 0 <= i < |parts| && IsText(parts[i], name)
  {
    var n := |parts| - 1;
    if IsText(parts[n], name) && Known(name) {
    } else {
      OnlyKnownTextsKept(parts[..n], name);
      var i :| 0 <= i < n && IsText(parts[..n][i], name);
      assert IsText(parts[i], name);
    }
  }

  // ---------------------------------------------------------------- part by part

  // What the loop knows after some parts.
  datatype Acc = Acc(count: nat, total: nat, fields: map<string, Bytes>, media: Option<Bytes>)

  // None: this part ends the upload.
  function Take(acc: Acc, p: Part): Option<Acc> {
    if acc.count >= MAX_PARTS || p.fails then None
    else if IsFile(p) then
      if p.name != MEDIA || acc.media.Some? then None
      else Some(acc.(count := acc.count + 1, media := Some(p.body)))
    else if |p.body| > MAX_FIELD_BYTES || acc.total + |p.body| > MAX_FIELDS_BYTES then None
    else
      var fields := if Known(p.name) then acc.fields[p.name := p.body] else acc.fields;
      Some(acc.(count := acc.count + 1, total := acc.total + |p.body|, fields := fields))
  }

  function ReadAll(parts: seq<Part>): Option<Acc> {
    if parts == [] then Some(Acc(0, 0, map[], None))
    else
      var before := ReadAll(parts[..|parts| - 1]);
      if before.None? then None else Take(before.value, parts[|parts| - 1])
  }

  // Reading part by part accepts exactly the uploads that are fine as a whole, and keeps of
  // them what is promised.
  lemma {:induction false} ReadAllIsFine(parts: seq<Part>)
    ensures ReadAll(parts).Some? <==> PartsFine(parts)
    ensures ReadAll(parts).Some? ==> ReadAll(parts).value == Acc(|parts|, TextBytes(parts), Fields(parts), Media(parts))
  {
    if parts == [] {
    } else {
      var last, before := parts[|parts| - 1], parts[..|parts| - 1];
      ReadAllIsFine(before);
      OnePartMore(before, last, parts);
    }
  }

  lemma {:induction false} OnePartMore(before: seq<Part>, last: Part, parts: seq<Part>)
    requires parts == before + [last]
    ensures PartsFine(parts) <==>
      && PartsFine(before)
      && Take(Acc(|before|, TextBytes(before), Fields(before), Media(before)), last).Some?
  {
    assert parts[..|before|] == before && parts[|before|] == last;
    assert forall i | 0 <= i < |before| :: parts[i] == before[i];
    MediaIsTheFile(before);
    if IsFile(last) && Media(before).Some? {
      var i :| 0 <= i < |before| && IsFile(before[i]);
      assert IsFile(parts[i]) && IsFile(parts[|before|]);
    }
  }

  lemma {:induction false} EndsEarly(parts: seq<Part>, n: nat)
    requires n <= |parts| && ReadAll(parts[..n]).None?
    ensures ReadAll(parts).None?
    decreases |parts|
  {
    if n < |parts| {
      assert parts[..|parts| - 1][..n] == parts[..n];
      EndsEarly(parts[..|parts| - 1], n);
    } else {
      assert parts[..n] == parts;
    }
  }

  lemma {:induction false} NextPart(parts: seq<Part>, n: nat)
    requires n < |parts| && ReadAll(parts[..n]).Some?
    ensures ReadAll(parts[..n + 1]) == Take(ReadAll(parts[..n]).value, parts[n])
    ensures Take(ReadAll(parts[..n]).value, parts[n]).None? ==> ReadAll(parts).None?
  {
    assert parts[..n + 1][..n] == parts[..n];
    if ReadAll(parts[..n + 1]).None? {
      EndsEarly(parts, n + 1);
    }
  }

  // ---------------------------------------------------------------- the code

  datatype Result =
    | Rejected
    | Staged(file: Option<nat>, fields: map<string, Bytes>)

  // One text part, read up to one byte past the smaller of the cap and what is left of the budget.
  method ReadText(part: Part, fieldsTotal: nat) returns (value: Option<Bytes>, read: nat)
    requires fieldsTotal <= MAX_FIELDS_BYTES
    ensures value.Some? <==> !part.fails && |part.body| <= MAX_FIELD_BYTES && fieldsTotal + |part.body| <= MAX_FIELDS_BYTES
    ensures value.Some? ==> value.value == part.body && read == |part.body|
    ensures fieldsTotal + read <= MAX_FIELDS_BYTES + 1
  {
    var limit := MAX_FIELD_BYTES;
    if MAX_FIELDS_BYTES - fieldsTotal < limit {
      limit := MAX_FIELDS_BYTES - fieldsTotal;
    }
    read := if |part.body| > limit then limit + 1 else |part.body|;
    value := if read > limit || part.fails then None else Some(part.body);
  }

  // The directory for staged uploads.
  class UploadDir {
    var files: map<nat, Bytes>
    var nextName: nat

    ghost predicate Valid()
      reads this
    {
      forall f | f in files :: f < nextName
    }

    constructor ()
      ensures Valid() && files == map[]
    {
      files, nextName := map[], 0;
    }

    // At most one file was created since `before`.
    ghost predicate Added(before: map<nat, Bytes>, file: Option<nat>)
      reads this
    {
      match file
      case None => files == before
      case Some(f) => f !in before && f in files && files - {f} == before
    }

    // The one media file; a copy that breaks off leaves its file behind for the cleanup.
    method StageFile(part: Part, earlier: Option<nat>) returns (ok: bool, file: Option<nat>)
      requires Valid()
      modifies this
      ensures Valid() && ok == (part.name == MEDIA && earlier.None? && !part.fails)
      ensures part.name != MEDIA || earlier.Some? ==> file == earlier && files == old(files)
      ensures part.name == MEDIA && earlier.None? ==>
        file.Some? && file.value !in old(files) && files == old(files)[file.value := part.body]
    {
      if part.name != MEDIA || earlier.Some? {
        return false, earlier;
      }
      file := Some(nextName);
      files, nextName := files[nextName := part.body], nextName + 1;
      ok := !part.fails;
    }

    function Content(file: Option<nat>): Option<Bytes>
      reads this
      requires file.Some? ==> file.value in files
    {
      match file
      case None => None
      case Some(f) => Some(files[f])
    }

    // The loop over the parts; on an error the file may be left for the caller's cleanup.
    // textRead counts every byte read from text parts, accepted or not.
    method StageParts(u: Upload) returns (ok: bool, file: Option<nat>, fields: map<string, Bytes>, handled: nat, textRead: nat)
      requires Valid()
      modifies this
      ensures Valid() && Added(old(files), file)
      ensures ok <==> ReadAll(u.parts).Some? && !u.breaks
      ensures handled <= 100 && textRead <= 262145
      ensures ok ==> ReadAll(u.parts) == Some(Acc(handled, textRead, fields, Content(file)))
    {
      ok, file, fields, handled, textRead := false, None, map[], 0, 0;
      var fieldsTotal: nat := 0;
      for n := 0 to |u.parts|
        invariant Valid() && Added(old(files), file)
        invariant ReadAll(u.parts[..n]) == Some(Acc(handled, fieldsTotal, fields, Content(file)))
        invariant textRead == fieldsTotal <= MAX_FIELDS_BYTES && handled <= MAX_PARTS
      {
        var part := u.parts[n];
        NextPart(u.parts, n);
        if handled + 1 > MAX_PARTS {
          return;
        }
        handled := handled + 1;
        if IsFile(part) {
          var whole := false;
          whole, file := StageFile(part, file);
          if !whole {
            return;
          }
          continue;
        }
        var value, read := ReadText(part, fieldsTotal);
        textRead := textRead + read;
        if value.None? {
          return;
        }
        fieldsTotal := fieldsTotal + |value.value|;
        if Known(part.name) {
          fields := fields[part.name := value.value];
        }
      }
      assert u.parts[..|u.parts|] == u.parts;
      ok := !u.breaks;
    }

    // stageMultipartUpload with its deferred cleanup and final rewind.
    method StageMultipartUpload(u: Upload) returns (r: Result, handled: nat, textRead: nat)
      requires Valid()
      modifies this
      ensures Valid()
      ensures r.Staged? <==> Acceptable(u)
      ensures r.Rejected? ==> files == old(files)
      ensures r.Staged? ==> Added(old(files), r.file)
      ensures r.Staged? ==> r.fields == Fields(u.parts) && Content(r.file) == Media(u.parts)
      ensures handled <= 100 && textRead <= 262145
    {
      var ok, file, fields;
      ok, file, fields, handled, textRead := StageParts(u);
      ReadAllIsFine(u.parts);
      if ok && !(file.Some? && u.rewindFails) {
        return Staged(file, fields), handled, textRead;
      }
      if file.Some? {
        files := files - {file.value};
      }
      return Rejected, handled, textRead;
    }
  }
}
