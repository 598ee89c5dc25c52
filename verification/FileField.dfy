/** Input files: safe names, file ids, and the paths that stand for the files
    attached to a job. */
module FileField {
  import opened Results
  import opened Json

  const CANONICAL_INPUTS_ROOT := "/inputs"
  const MAX_SAFE_NAME_BYTES: nat := 128
  const MAX_KEPT_EXTENSION_BYTES: nat := 32
  const ID_PREFIX := "file_"

  // ---- Safe names -------------------------------------------------------------------------

  predicate IsSafeChar(c: char) {
    'a' <= c <= 'z' || 'A' <= c <= 'Z' || '0' <= c <= '9' || c == '.' || c == '_' || c == '-'
  }

  predicate IsSeparator(c: char) {
    c == '/' || c == '\\'
  }

  /** What follows the last slash or backslash. */
  function BaseName(s: string): (base: string)
    ensures |base| <= |s| && base == s[|s| - |base|..]
    ensures forall i :: 0 <= i < |base| ==> !IsSeparator(base[i])
    ensures |base| < |s| ==> IsSeparator(s[|s| - |base| - 1])
  {
    if s == [] || IsSeparator(s[|s| - 1]) then [] else BaseName(s[..|s| - 1]) + [s[|s| - 1]]
  }

  function ReplaceUnsafe(s: string): (r: string)
    ensures |r| == |s| && forall i :: 0 <= i < |r| ==> IsSafeChar(r[i]) && (IsSafeChar(s[i]) ==> r[i] == s[i])
  {
    seq(|s|, i requires 0 <= i < |s| => if IsSafeChar(s[i]) then s[i] else '_')
  }

  /** Where the last dot is, or the length when there is none. */
  function LastDot(s: string): (n: nat)
    ensures n <= |s| && (n < |s| ==> s[n] == '.')
    ensures forall i :: n < i < |s| ==> s[i] != '.'
    ensures n == |s| ==> '.' !in s
  {
    if s == [] then 0
    else if s[|s| - 1] == '.' then |s| - 1
    else
      var n := LastDot(s[..|s| - 1]);
      if n == |s| - 1 then |s| else n
  }

  /** Cut to the longest length, keeping a short extension. */
  function Truncated(name: string): string {
    if |name| <= MAX_SAFE_NAME_BYTES then name
    else
      var dot := LastDot(name);
      if 0 < dot < |name| && |name| - dot <= MAX_KEPT_EXTENSION_BYTES
      then name[..MAX_SAFE_NAME_BYTES - (|name| - dot)] + name[dot..]
      else name[..MAX_SAFE_NAME_BYTES]
  }

  function Cleaned(base: string): (name: string)
    requires base != ""
    ensures |name| == |base|
  {
    var name := ReplaceUnsafe(base);
    if name[0] == '.' || name[0] == '-' then name[0 := '_'] else name
  }

  function Safe(original: string): Option<string> {
    var base := BaseName(original);
    if base == "" || base == "." || base == ".." then None else Some(Truncated(Cleaned(base)))
  }

  method SafeName(original: string) returns (r: Option<string>)
    ensures r == Safe(original)
  {
    hide LastDot, BaseName, ReplaceUnsafe;
    var base := BaseName(original);
    if base == "" || base == "." || base == ".." {
      return None;
    }
    var name := ReplaceUnsafe(base);
    if name[0] == '.' || name[0] == '-' {
      name := name[0 := '_'];
    }
    if |name| > MAX_SAFE_NAME_BYTES {
      var dot := LastDot(name);
      if 0 < dot < |name| && |name| - dot <= MAX_KEPT_EXTENSION_BYTES {
        var extension := name[dot..];
        name := name[..MAX_SAFE_NAME_BYTES - |extension|];
        name := name + extension;
      } else {
        name := name[..MAX_SAFE_NAME_BYTES];
      }
    }
    r := Some(name);
  }

  /** A single path component: a few characters only, none hidden, none an option, not too long. */
  ghost predicate IsSafe(name: string) {
    && 0 < |name| <= MAX_SAFE_NAME_BYTES && name[0] != '.' && name[0] != '-'
    && forall i :: 0 <= i < |name| ==> IsSafeChar(name[i])
  }

  lemma {:induction false} BaseNameOfSafe(s: string)
    requires forall i :: 0 <= i < |s| ==> IsSafeChar(s[i])
    ensures BaseName(s) == s
    decreases |s|
  {
    if s != [] { BaseNameOfSafe(s[..|s| - 1]); }
  }

  lemma TruncatedIsSafe(name: string)
    requires name != "" && name[0] != '.' && name[0] != '-'
    requires forall i :: 0 <= i < |name| ==> IsSafeChar(name[i])
    ensures IsSafe(Truncated(name)) && |Truncated(name)| <= 128
  {
    hide IsSafeChar, LastDot;
    var dot := LastDot(name);
    if |name| > MAX_SAFE_NAME_BYTES && 0 < dot < |name| && |name| - dot <= MAX_KEPT_EXTENSION_BYTES {
      var front, extension := name[..MAX_SAFE_NAME_BYTES - (|name| - dot)], name[dot..];
      assert Truncated(name) == front + extension;
    }
  }

  /** Every name given out is safe. */
  lemma SafeNameIsSafe(original: string)
    ensures Safe(original).Some? ==> IsSafe(Safe(original).value) && |Safe(original).value| <= 128
  {
    hide IsSafe, Truncated, BaseName;
    if Safe(original).Some? {
      TruncatedIsSafe(Cleaned(BaseName(original)));
    }
  }

  /** The safe names are exactly those left as they are. */
  lemma SafeIffUnchanged(name: string)
    ensures IsSafe(name) <==> Safe(name) == Some(name)
  {
    SafeNameIsSafe(name);
    if IsSafe(name) {
      BaseNameOfSafe(name);
      assert ReplaceUnsafe(name) == name;
    }
  }

  lemma SafeNameIsIdempotent(original: string)
    requires Safe(original).Some?
    ensures Safe(Safe(original).value) == Safe(original)
  {
    SafeNameIsSafe(original);
    SafeIffUnchanged(Safe(original).value);
  }

  lemma LastDotStartsTheExtension(stem: string, extension: string)
    requires stem != "" && extension != "" && extension[0] == '.' && '.' !in extension[1..]
    ensures Cleaned(stem + extension)[|stem|..] == ReplaceUnsafe(extension)
    ensures LastDot(Cleaned(stem + extension)) == |stem|
  {
    hide LastDot;
    var name, end := Cleaned(stem + extension), ReplaceUnsafe(extension);
    forall i | 0 <= i < |extension| ensures name[|stem| + i] == end[i] {
      assert (stem + extension)[|stem| + i] == extension[i];
    }
    forall i | |stem| < i < |name| ensures name[i] != '.' {
      assert extension[i - |stem|] == extension[1..][i - |stem| - 1];
      assert name[|stem| + (i - |stem|)] == end[i - |stem|];
    }
    assert name[|stem| + 0] == '.';
  }

  /** Only the end of a name is ever cut: its length is capped, and it keeps its front. */
  lemma TruncatedKeepsTheFront(name: string, front: nat)
    requires front <= |name| && front <= 96
    ensures |Truncated(name)| == if |name| <= 128 then |name| else 128
    ensures Truncated(name)[..front] == name[..front]
  {
    hide LastDot;
    var dot := LastDot(name);
    if |name| > MAX_SAFE_NAME_BYTES && 0 < dot < |name| && |name| - dot <= MAX_KEPT_EXTENSION_BYTES {
      assert Truncated(name) == name[..MAX_SAFE_NAME_BYTES - (|name| - dot)] + name[dot..];
    }
  }

  /** A name is refused exactly when nothing usable follows its last separator. */
  lemma RefusedIff(original: string)
    ensures Safe(original).None? <==> BaseName(original) in {"", ".", ".."}
  {}

  /** A safe character stays, unless it is a leading dot or hyphen; every other character becomes an underscore. */
  lemma CleanedByPlace(base: string, i: nat)
    requires i < |base|
    ensures var c := base[i];
      var safe := 'a' <= c <= 'z' || 'A' <= c <= 'Z' || '0' <= c <= '9' || c in {'.', '_', '-'};
      Cleaned(base)[i] == if safe && !(i == 0 && c in {'.', '-'}) then c else '_'
  {}

  /** A short extension survives whatever is cut, with as much of the front as fits. */
  lemma ShortExtensionSurvives(original: string, stem: string, extension: string)
    requires BaseName(original) == stem + extension && stem != ""
    requires 0 < |extension| <= 32 && extension[0] == '.' && '.' !in extension[1..]
    requires Safe(original).Some?
    ensures var room := 128 - |extension|;
      Safe(original).value ==
        Cleaned(stem + extension)[..if |stem| <= room then |stem| else room] + ReplaceUnsafe(extension)
  {
    hide LastDot, Cleaned, ReplaceUnsafe, BaseName;
    LastDotStartsTheExtension(stem, extension);
    var name := Cleaned(stem + extension);
    assert name == name[..|stem|] + name[|stem|..];
  }

  // ---- Paths --------------------------------------------------------------------------------

  predicate IsHexDigit(c: char) {
    '0' <= c <= '9' || 'a' <= c <= 'f'
  }

  predicate IsFileId(s: string) {
    ID_PREFIX <= s && |s| == |ID_PREFIX| + 32 && forall i :: |ID_PREFIX| <= i < |s| ==> IsHexDigit(s[i])
  }

  lemma FileIdIff(s: string)
    ensures IsFileId(s) <==> exists hex: string ::
      s == "file_" + hex && |hex| == 32 && forall i :: 0 <= i < |hex| ==> '0' <= hex[i] <= '9' || 'a' <= hex[i] <= 'f'
  {
    if IsFileId(s) {
      var hex := s[|ID_PREFIX|..];
      assert s == "file_" + hex;
    }
  }

  function FilePath(root: string, id: string, name: string): string {
    root + "/" + id + "/" + name
  }

  predicate NoSlash(s: string) {
    forall i :: 0 <= i < |s| ==> s[i] != '/'
  }

  lemma IdsAndNamesHaveNoSlash(id: string, name: string)
    ensures IsFileId(id) ==> NoSlash(id)
    ensures IsSafe(name) ==> NoSlash(name)
  {}

  /** The part before the first slash. */
  function BeforeSlash(s: string): (r: Option<string>)
    ensures r.Some? ==> r.value + "/" <= s && NoSlash(r.value)
    ensures r.None? ==> NoSlash(s)
  {
    if s == [] then None
    else if s[0] == '/' then Some([])
    else
      var rest := BeforeSlash(s[1..]);
      if rest.Some? then Some([s[0]] + rest.value) else None
  }

  lemma FirstPart(id: string, rest: string)
    requires NoSlash(id)
    ensures BeforeSlash(id + "/" + rest) == Some(id)
  {
    var s := id + "/" + rest;
    assert s[|id|] == '/';
    var r := BeforeSlash(s).value;
    assert s[|r|] == (r + "/")[|r|];
    assert |r| == |id|;
    assert r == s[..|r|] == id;
  }

  /** The last component and what precedes it are determined. */
  lemma LastPart(a: string, x: string, b: string, y: string)
    requires a + "/" + x == b + "/" + y && NoSlash(x) && NoSlash(y)
    ensures a == b && x == y
  {
    LastSlash(a, x);
    LastSlash(b, y);
    var s := a + "/" + x;
    assert a == s[..|a|] && b == s[..|b|];
    assert x == s[|a| + 1..] && y == s[|b| + 1..];
  }

  lemma LastSlash(a: string, x: string)
    requires NoSlash(x)
    ensures (a + "/" + x)[|a|] == '/'
    ensures forall i :: |a| < i < |a + "/" + x| ==> (a + "/" + x)[i] != '/'
  {}

  // ---- The files of a job ----------------------------------------------------------------------

  datatype FileRef = FileRef(fileId: string, safeName: string)

  datatype JobFiles = JobFiles(root: string, fields: map<string, string>, files: map<string, FileRef>)
  {
    /** Every file is held under its own id, with a safe name. */
    ghost predicate Valid() {
      forall id :: id in files ==> files[id].fileId == id && IsFileId(id) && IsSafe(files[id].safeName)
    }

    function PathOf(id: string): Option<string> {
      if id in files then Some(FilePath(root, files[id].fileId, files[id].safeName)) else None
    }

    /** The file whose path under `base` is exactly `value`. */
    function FileAt(base: string, value: string): Option<FileRef> {
      if !(base + "/" <= value) then None
      else
        var id := BeforeSlash(value[|base| + 1..]);
        if id.Some? && id.value in files
           && FilePath(base, files[id.value].fileId, files[id.value].safeName) == value
        then Some(files[id.value])
        else None
    }

    /** The file a value names: by its id, or by its path. */
    function ResolveTarget(value: string): Option<FileRef> {
      if value in files then Some(files[value]) else FileAt(root, value)
    }

    /** Every string that is the canonical path of an attached file moved to this root, at any depth. */
    function RebaseCanonical(v: Json): Json {
      if root == CANONICAL_INPUTS_ROOT || files == map[] then v
      else match v
        case Str(s) =>
          var f := FileAt(CANONICAL_INPUTS_ROOT, s);
          if f.Some? then Str(FilePath(root, f.value.fileId, f.value.safeName)) else v
        case Arr(items) => Arr(seq(|items|, i requires 0 <= i < |items| => RebaseCanonical(items[i])))
        case Obj(fields) => Obj(map k | k in fields :: RebaseCanonical(fields[k]))
        case _ => v
    }
  }

  lemma PathFindsItsFile(job: JobFiles, base: string, id: string)
    requires job.Valid() && id in job.files
    ensures job.FileAt(base, FilePath(base, id, job.files[id].safeName)) == Some(job.files[id])
  {
    var name := job.files[id].safeName;
    var value := FilePath(base, id, name);
    assert NoSlash(id) by { IdsAndNamesHaveNoSlash(id, name); }
    assert value == (base + "/") + (id + "/" + name);
    assert value[|base| + 1..] == id + "/" + name;
    hide IsFileId, IsSafe, BeforeSlash, NoSlash;
    FirstPart(id, name);
  }

  /** A path leads to a file exactly when it is that file's path. */
  lemma FileAtIff(job: JobFiles, base: string, value: string, f: FileRef)
    requires job.Valid()
    ensures job.FileAt(base, value) == Some(f) <==>
            exists id :: id in job.files && job.files[id] == f && value == FilePath(base, id, f.safeName)
  {
    hide IsFileId, IsSafe, FilePath;
    if id :| id in job.files && job.files[id] == f && value == FilePath(base, id, f.safeName) {
      PathFindsItsFile(job, base, id);
    }
  }

  /** A value names a file exactly when it is the file's id or its path. */
  lemma ResolveTargetIff(job: JobFiles, value: string, f: FileRef)
    requires job.Valid()
    ensures job.ResolveTarget(value) == Some(f) <==>
            exists id :: id in job.files && job.files[id] == f && (value == id || job.PathOf(id) == Some(value))
  {
    hide FilePath, IsFileId, IsSafe, JobFiles.FileAt;
    FileAtIff(job, job.root, value, f);
    forall id | id in job.files ensures job.PathOf(id) != Some(value) || value !in job.files {
      PathIsNotAnId(job, id);
      if value in job.files { IdsAndNamesHaveNoSlash(value, ""); }
    }
  }

  lemma PathIsNotAnId(job: JobFiles, id: string)
    requires id in job.files
    ensures !NoSlash(job.PathOf(id).value)
  {
    assert job.PathOf(id).value[|job.root|] == '/';
  }

  /** Resolving undoes naming, under any root. */
  lemma ResolveInvertsPath(job: JobFiles, id: string)
    requires job.Valid() && id in job.files
    ensures job.ResolveTarget(job.PathOf(id).value) == Some(job.files[id])
    ensures job.ResolveTarget(id) == Some(job.files[id])
  {
    ResolveTargetIff(job, job.PathOf(id).value, job.files[id]);
    ResolveTargetIff(job, id, job.files[id]);
  }

  // ---- Rebasing ---------------------------------------------------------------------------------

  /** A path under another root is no file's canonical path. */
  lemma RebasedIsNotCanonical(job: JobFiles, id: string, other: string)
    requires job.Valid() && id in job.files && other in job.files && job.root != CANONICAL_INPUTS_ROOT
    ensures FilePath(CANONICAL_INPUTS_ROOT, other, job.files[other].safeName) !=
      FilePath(job.root, id, job.files[id].safeName)
  {
    IdsAndNamesHaveNoSlash(id, job.files[id].safeName);
    IdsAndNamesHaveNoSlash(other, job.files[other].safeName);
    var name, otherName := job.files[id].safeName, job.files[other].safeName;
    if FilePath(CANONICAL_INPUTS_ROOT, other, otherName) == FilePath(job.root, id, name) {
      LastPart(CANONICAL_INPUTS_ROOT + "/" + other, otherName, job.root + "/" + id, name);
      LastPart(CANONICAL_INPUTS_ROOT, other, job.root, id);
    }
  }

  lemma RebasedStringStays(job: JobFiles, s: string)
    requires job.Valid()
    ensures job.RebaseCanonical(job.RebaseCanonical(Str(s))) == job.RebaseCanonical(Str(s))
  {
    hide FilePath, IsFileId, IsSafe, JobFiles.FileAt;
    if job.root != CANONICAL_INPUTS_ROOT && job.files != map[] {
      var f := job.FileAt(CANONICAL_INPUTS_ROOT, s);
      if f.Some? {
        FileAtIff(job, CANONICAL_INPUTS_ROOT, s, f.value);
        var id :| id in job.files && job.files[id] == f.value
                  && s == FilePath(CANONICAL_INPUTS_ROOT, id, f.value.safeName);
        var moved := FilePath(job.root, id, f.value.safeName);
        var again := job.FileAt(CANONICAL_INPUTS_ROOT, moved);
        if again.Some? {
          FileAtIff(job, CANONICAL_INPUTS_ROOT, moved, again.value);
          var other :| other in job.files && job.files[other] == again.value
                       && moved == FilePath(CANONICAL_INPUTS_ROOT, other, again.value.safeName);
          RebasedIsNotCanonical(job, id, other);
        }
      }
    }
  }

  /** Rebasing twice is rebasing once, at any depth of arrays and objects. */
  lemma {:induction false} RebaseIsIdempotent(job: JobFiles, v: Json)
    requires job.Valid()
    ensures job.RebaseCanonical(job.RebaseCanonical(v)) == job.RebaseCanonical(v)
    decreases v
  {
    hide JobFiles.FileAt, IsFileId, IsSafe;
    match v
    case Str(s) => RebasedStringStays(job, s);
    case Arr(items) =>
      forall i | 0 <= i < |items| { RebaseIsIdempotent(job, items[i]); }
    case Obj(fields) =>
      forall k | k in fields { RebaseIsIdempotent(job, fields[k]); }
    case _ =>
  }

  lemma CanonicalPath(id: string, name: string)
    ensures FilePath(CANONICAL_INPUTS_ROOT, id, name) == "/inputs/" + id + "/" + name
  {
    assert "/inputs" + "/" == "/inputs/";
  }

  /** A canonical path still names its file once it is rebased. */
  lemma RebasedPathNamesItsFile(job: JobFiles, id: string)
    requires job.Valid() && id in job.files
    ensures var moved := job.RebaseCanonical(Str("/inputs/" + id + "/" + job.files[id].safeName));
      moved == Str(job.PathOf(id).value) && job.ResolveTarget(moved.s) == Some(job.files[id])
  {
    CanonicalPath(id, job.files[id].safeName);
    hide FilePath, IsFileId, IsSafe, JobFiles.FileAt, JobFiles.ResolveTarget;
    ResolveInvertsPath(job, id);
    if job.root != CANONICAL_INPUTS_ROOT {
      FileAtIff(job, CANONICAL_INPUTS_ROOT, FilePath(CANONICAL_INPUTS_ROOT, id, job.files[id].safeName), job.files[id]);
    }
  }

  /** At every place the rebased value has what the value had there, rebased: the shape is kept, a string that
      is a file's canonical path becomes that file's path, and every other leaf stays. */
  lemma {:induction false} RebaseActsOnEveryString(job: JobFiles, v: Json, p: Path)
    requires job.Valid()
    ensures At(v, p).None? <==> At(job.RebaseCanonical(v), p).None?
    ensures At(v, p).Some? ==> At(job.RebaseCanonical(v), p) == Some(job.RebaseCanonical(At(v, p).value))
    decreases |p|
  {
    hide JobFiles.FileAt, IsFileId, IsSafe, FilePath;
    if p != [] {
      var child := Child(v, p[0]);
      if child.Some? {
        RebaseActsOnEveryString(job, child.value, p[1..]);
        assert Child(job.RebaseCanonical(v), p[0]) == Some(job.RebaseCanonical(child.value));
      }
    }
  }

  lemma OtherStringsStay(job: JobFiles, s: string)
    requires job.Valid()
    requires forall id :: id in job.files ==> s != FilePath(CANONICAL_INPUTS_ROOT, id, job.files[id].safeName)
    ensures job.RebaseCanonical(Str(s)) == Str(s)
  {
    var f := job.FileAt(CANONICAL_INPUTS_ROOT, s);
    hide JobFiles.FileAt, IsFileId, IsSafe, FilePath;
    if f.Some? { FileAtIff(job, CANONICAL_INPUTS_ROOT, s, f.value); }
  }

  // ---- Filling the maps ----------------------------------------------------------------------------

  ghost predicate ValidRef(f: FileRef) {
    IsFileId(f.fileId) && IsSafe(f.safeName)
  }

  /** The files of a job, attachment by attachment. */
  ghost function Attached(root: string, attachments: seq<(string, FileRef)>): JobFiles {
    if attachments == [] then JobFiles(root, map[], map[])
    else
      var before, (field, file) := Attached(root, attachments[..|attachments| - 1]), attachments[|attachments| - 1];
      JobFiles(root, before.fields[field := file.fileId], before.files[file.fileId := file])
  }

  method NewJobFiles(root: string, attachments: seq<(string, FileRef)>) returns (job: JobFiles)
    ensures job == Attached(root, attachments)
  {
    var fields: map<string, string>, files: map<string, FileRef> := map[], map[];
    for n := 0 to |attachments|
      invariant JobFiles(root, fields, files) == Attached(root, attachments[..n])
    {
      var (field, file) := attachments[n];
      assert attachments[..n + 1][..n] == attachments[..n];
      fields := fields[field := file.fileId];
      files := files[file.fileId := file];
    }
    assert attachments[..|attachments|] == attachments;
    job := JobFiles(root, fields, files);
  }

  /** Every attached field, and no other, holds the id of an attached file; valid attachments make a valid job. */
  lemma {:induction false} FieldsHoldAttachedFiles(root: string, attachments: seq<(string, FileRef)>)
    ensures var job := Attached(root, attachments);
      && job.root == root
      && (forall field :: field in job.fields <==> exists i :: 0 <= i < |attachments| && attachments[i].0 == field)
      && (forall field :: field in job.fields ==> job.fields[field] in job.files)
      && ((forall i :: 0 <= i < |attachments| ==> ValidRef(attachments[i].1)) ==> job.Valid())
    decreases |attachments|
  {
    hide IsFileId, IsSafe;
    if attachments != [] {
      var init := attachments[..|attachments| - 1];
      FieldsHoldAttachedFiles(root, init);
      assert forall i :: 0 <= i < |init| ==> init[i] == attachments[i];
    }
  }

  /** The last attachment of a field is the one it holds, and the last attachment of a file id is its file. */
  lemma {:induction false} LastAttachmentWins(root: string, attachments: seq<(string, FileRef)>, i: nat)
    requires i < |attachments|
    ensures var job, (field, file) := Attached(root, attachments), attachments[i];
      && ((forall j :: i < j < |attachments| ==> attachments[j].0 != field) ==>
            field in job.fields && job.fields[field] == file.fileId)
      && ((forall j :: i < j < |attachments| ==> attachments[j].1.fileId != file.fileId) ==>
            file.fileId in job.files && job.files[file.fileId] == file)
    decreases |attachments|
  {
    if i < |attachments| - 1 {
      var init := attachments[..|attachments| - 1];
      assert forall j :: 0 <= j < |init| ==> init[j] == attachments[j];
      LastAttachmentWins(root, init, i);
    }
  }

  /** Each attached field that still holds its own file id gets the file's path; nothing else changes. */
  method TemplateInput(job: JobFiles, input: Json) returns (out: Json)
    ensures !input.Obj? ==> out == input
    ensures input.Obj? ==> out.Obj? && out.fields.Keys == input.fields.Keys
    ensures input.Obj? ==> forall k :: k in input.fields ==>
      out.fields[k] == if k in job.fields && input.fields[k] == Str(job.fields[k]) && job.fields[k] in job.files
                       then Str(job.PathOf(job.fields[k]).value) else input.fields[k]
  {
    if !input.Obj? {
      return input;
    }
    var result := input.fields;
    var todo := job.fields.Keys;
    while todo != {}
      invariant todo <= job.fields.Keys && result.Keys == input.fields.Keys
      invariant forall k :: k in input.fields ==>
        result[k] == if k in job.fields && k !in todo
                        && input.fields[k] == Str(job.fields[k]) && job.fields[k] in job.files
                     then Str(job.PathOf(job.fields[k]).value) else input.fields[k]
      decreases todo
    {
      var k :| k in todo;
      if k in result && result[k] == Str(job.fields[k]) && job.PathOf(job.fields[k]).Some? {
        result := result[k := Str(job.PathOf(job.fields[k]).value)];
      }
      todo := todo - {k};
    }
    out := Obj(result);
  }
}
