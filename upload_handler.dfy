/**
 * The upload handler's rules (backend/internal/handlers/upload.go): the size
 * limit, the whitelist of sniffed content types, the filename sanitising of
 * `sanitizeFilename` (`filepath.Base` on a Unix system, then spaces to
 * underscores), and the `category/timestamp_name` storage path.
 */
module UploadHandler {
  import opened Wrappers
  import opened Text

  /** `10 << 20` bytes. */
  const MaxUploadSize: nat := 10 * 0x10_0000

  lemma MaxUploadSizeIsTenMebibytes()
    ensures MaxUploadSize == 10_485_760
  {
  }

  /** `allowedTypes`, a map to `true`; a missing key reads as `false`. */
  const AllowedTypes: map<string, bool> :=
    map["application/pdf" := true, "image/jpeg" := true, "image/jpg" := true, "image/png" := true]

  function TypeAllowed(contentType: string): (ok: bool)
    ensures ok <==> contentType == "application/pdf" || contentType == "image/jpeg" ||
                    contentType == "image/jpg" || contentType == "image/png"
  {
    contentType in AllowedTypes && AllowedTypes[contentType]
  }

  // ── filepath.Base ────────────────────────────────────────────────────

  /** `s` without its trailing slashes. */
  function StripTrailingSlashes(s: string): (r: string)
    ensures |r| <= |s| && r == s[..|r|]
    ensures r == [] || r[|r| - 1] != '/'
    ensures forall i :: |r| <= i < |s| ==> s[i] == '/'
    decreases |s|
  {
    if s != [] && s[|s| - 1] == '/' then StripTrailingSlashes(s[..|s| - 1]) else s
  }

  /** The text after the last slash of `s` (all of `s` when it has none). */
  function AfterLastSlash(s: string): (r: string)
    ensures '/' !in r
    ensures |r| <= |s| && r == s[|s| - |r|..]
    ensures |r| < |s| ==> s[|s| - |r| - 1] == '/'
    decreases |s|
  {
    if s == [] then []
    else if s[|s| - 1] == '/' then []
    else
      var front := s[..|s| - 1];
      var init := AfterLastSlash(front);
      var start := |front| - |init|;
      assert init == s[start..|s| - 1] by {
        assert front[start..] == s[start..|s| - 1];
      }
      assert init + [s[|s| - 1]] == s[start..];
      assert start > 0 ==> s[start - 1] == front[start - 1];
      init + [s[|s| - 1]]
  }

  /** A non-empty name made of slashes only. */
  predicate SlashesOnly(name: string) {
    name != [] && forall i :: 0 <= i < |name| ==> name[i] == '/'
  }

  /**
   * `filepath.Base` on Unix: "." for the empty path, "/" for a path of
   * slashes only (`BaseSlashIff`), otherwise the last element once trailing
   * slashes are gone (`BaseIsLastElement`).
   */
  function Base(path: string): (r: string)
    ensures r != ""
    ensures r == "/" || '/' !in r
    ensures path == "" ==> r == "."
  {
    if path == "" then "."
    else
      var stripped := StripTrailingSlashes(path);
      if stripped == "" then "/"
      else AfterLastSlash(stripped)
  }

  /** The base is "/" exactly for a non-empty path made of slashes. */
  lemma BaseSlashIff(path: string)
    ensures Base(path) == "/" <==> SlashesOnly(path)
  {
    if path != "" {
      var stripped := StripTrailingSlashes(path);
      if stripped == "" {
        assert SlashesOnly(path);
      } else {
        assert path[|stripped| - 1] != '/';
      }
    }
  }

  /**
   * Otherwise trailing slashes leave something behind and the base is its
   * last element, as `AfterLastSlash` states.
   */
  lemma BaseIsLastElement(path: string)
    requires path != "" && !SlashesOnly(path)
    ensures StripTrailingSlashes(path) != ""
    ensures Base(path) == AfterLastSlash(StripTrailingSlashes(path))
  {
    var stripped := StripTrailingSlashes(path);
    var i :| 0 <= i < |path| && path[i] != '/';
    assert i < |stripped|;
  }

  /** A trailing slash does not change the base of a non-empty path. */
  lemma BaseIgnoresTrailingSlash(path: string)
    requires path != ""
    ensures Base(path + "/") == Base(path)
  {
    assert (path + "/")[..|path|] == path;
    assert StripTrailingSlashes(path + "/") == StripTrailingSlashes(path);
  }

  /** A name with no slash is its own base. */
  lemma BaseOfPlainName(name: string)
    requires name != "" && '/' !in name
    ensures Base(name) == name
  {
    assert StripTrailingSlashes(name) == name;
  }

  /** `filepath.Base` returns a value it leaves alone. */
  lemma BaseIdempotent(path: string)
    ensures Base(Base(path)) == Base(path)
  {
    var b := Base(path);
    if b != "/" {
      BaseOfPlainName(b);
    }
  }

  // ── sanitizeFilename ─────────────────────────────────────────────────

  /**
   * `sanitizeFilename`: the base name with every space turned into `_`;
   * `SanitizedSlashIff` says when the result is "/".
   */
  function SanitizeFilename(name: string): (safe: string)
    ensures ' ' !in safe
    ensures safe != ""
    ensures safe == "/" || '/' !in safe
    ensures name == "" ==> safe == "."
    ensures |safe| == |Base(name)|
    ensures forall i :: 0 <= i < |safe| ==> safe[i] == if Base(name)[i] == ' ' then '_' else Base(name)[i]
  {
    var b := Base(name);
    var safe := ReplaceChar(b, ' ', "_");
    assert |safe| == |b| && forall i :: 0 <= i < |b| ==> safe[i] == if b[i] == ' ' then '_' else b[i];
    assert safe == "/" || '/' !in safe by {
      if b == "/" {
        assert safe[0] == '/';
      } else {
        forall i | 0 <= i < |safe| ensures safe[i] != '/' {
          assert b[i] != '/';
        }
      }
    }
    safe
  }

  /** Exactly the non-empty names made of slashes sanitise to "/". */
  lemma SanitizedSlashIff(name: string)
    ensures SanitizeFilename(name) == "/" <==> SlashesOnly(name)
  {
    BaseSlashIff(name);
    var b, safe := Base(name), SanitizeFilename(name);
    if |b| == 1 {
      assert safe[0] == '/' <==> b[0] == '/';
    }
  }

  /** Sanitising a sanitised name changes nothing. */
  lemma SanitizeIdempotent(name: string)
    ensures SanitizeFilename(SanitizeFilename(name)) == SanitizeFilename(name)
  {
    var safe := SanitizeFilename(name);
    BaseIdempotent(safe);
    if safe != "/" {
      BaseOfPlainName(safe);
    }
  }

  // ── The storage path ─────────────────────────────────────────────────

  /** The `category` form value, `general` when empty. */
  function Category(category: string): (c: string)
    ensures c != ""
    ensures category != "" ==> c == category
  {
    if category == "" then "general" else category
  }

  /**
   * The last element of the storage path, `timestamp_safeName`: the digits,
   * an underscore, then the sanitised name. It holds no slash unless the
   * uploaded name consists of slashes only (the sanitised name is then "/").
   */
  function StoredName(timestamp: nat, filename: string): (name: string)
    ensures |name| == |DecimalString(timestamp)| + 1 + |SanitizeFilename(filename)|
    ensures name[|DecimalString(timestamp)|] == '_'
    ensures SanitizeFilename(filename) != "/" ==> '/' !in name
  {
    var digits, safe := DecimalString(timestamp), SanitizeFilename(filename);
    NoSlashInDigits(digits);
    digits + "_" + safe
  }

  /** `fmt.Sprintf("%s/%d_%s", category, timestamp, safeName)`. */
  function StoragePath(category: string, timestamp: nat, filename: string): (path: string)
    ensures |path| == |Category(category)| + 1 + |StoredName(timestamp, filename)|
    ensures path[|Category(category)|] == '/'
  {
    Category(category) + "/" + StoredName(timestamp, filename)
  }

  /**
   * The last element of the storage path is the timestamp and the sanitised
   * name, whatever slashes the category holds, unless the uploaded name
   * consists of slashes only; then the sanitised name is "/" and the path
   * ends in a slash.
   */
  lemma StoragePathNamesFile(category: string, timestamp: nat, filename: string)
    requires !SlashesOnly(filename)
    ensures Base(StoragePath(category, timestamp, filename)) == DecimalString(timestamp) + "_" + SanitizeFilename(filename)
  {
    SanitizedSlashIff(filename);
    BaseOfJoin(Category(category), StoredName(timestamp, filename));
  }

  lemma NoSlashInDigits(s: string)
    requires AllDigits(s)
    ensures '/' !in s
  {
    forall i | 0 <= i < |s| ensures s[i] != '/' {
      assert IsDigit(s[i]);
    }
  }

  /** The base of `dir/file` is `file` when `file` is a non-empty name without slashes. */
  lemma BaseOfJoin(dir: string, file: string)
    requires file != [] && '/' !in file
    ensures Base(dir + "/" + file) == file
  {
    var p := dir + "/" + file;
    assert p[|p| - 1] == file[|file| - 1];
    assert StripTrailingSlashes(p) == p;
    AfterLastSlashOfJoin(dir + "/", file);
    assert dir + "/" + file == (dir + "/") + file;
  }

  lemma {:induction false} AfterLastSlashOfJoin(dir: string, file: string)
    requires dir != [] && dir[|dir| - 1] == '/' && '/' !in file
    ensures AfterLastSlash(dir + file) == file
    decreases |file|
  {
    if file == [] {
      assert dir + file == dir;
    } else {
      var init := file[..|file| - 1];
      AfterLastSlashOfJoin(dir, init);
      assert (dir + file)[..|dir + file| - 1] == dir + init;
      assert file[|file| - 1] in file;
      assert init + [file[|file| - 1]] == file;
    }
  }

  // ── Upload ───────────────────────────────────────────────────────────

  /**
   * The form of an upload: the body size, whether the body parses as
   * multipart form data, the `file` part's name and sniffed type if present,
   * and the category.
   */
  datatype UploadForm = UploadForm(bodySize: nat, wellFormed: bool, file: Option<(string, string)>, category: string)

  datatype UploadOutcome = UploadRejected(status: int, message: string) | Store(path: string, contentType: string)

  /**
   * The checks of `Upload` in order: the multipart parse, which fails on a
   * body over the limit and on any malformed body alike and is answered
   * with the size message either way; presence of the file part; the
   * sniffed type. An accepted file is stored under `StoragePath`.
   */
  function Upload(form: UploadForm, timestamp: nat): (out: UploadOutcome)
    ensures out.Store? <==>
      form.bodySize <= MaxUploadSize && form.wellFormed && form.file.Some? && TypeAllowed(form.file.value.1)
    ensures form.bodySize > MaxUploadSize || !form.wellFormed ==>
      out == UploadRejected(400, "File too large. Maximum size is 10MB.")
    ensures form.bodySize <= MaxUploadSize && form.wellFormed && form.file.None? ==>
      out == UploadRejected(400, "Missing 'file' field in form data.")
    ensures form.bodySize <= MaxUploadSize && form.wellFormed && form.file.Some? && !TypeAllowed(form.file.value.1) ==>
      out == UploadRejected(400, "File type '" + form.file.value.1 + "' not allowed. Accepted: PDF, JPG, PNG.")
    ensures out.Store? ==>
      out.path == StoragePath(form.category, timestamp, form.file.value.0) && out.contentType == form.file.value.1
  {
    if form.bodySize > MaxUploadSize || !form.wellFormed then UploadRejected(400, "File too large. Maximum size is 10MB.")
    else if form.file.None? then UploadRejected(400, "Missing 'file' field in form data.")
    else if !TypeAllowed(form.file.value.1) then
      UploadRejected(400, "File type '" + form.file.value.1 + "' not allowed. Accepted: PDF, JPG, PNG.")
    else Store(StoragePath(form.category, timestamp, form.file.value.0), form.file.value.1)
  }
}
