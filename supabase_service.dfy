/** The server-side storage service (services/supabase.js): storage-key derivation, the public URL
    of a stored photo and its parsing back into bucket and path, the lazily created client, and the
    four operations upload, save, list and delete. */
module SupabaseService {
  import opened Wrappers
  import opened Text
  import opened Backend

  /** The bucket every photo is uploaded to. */
  const PhotoBucket := "staff-photos"

  // ---------------------------------------------------------------------------
  // Storage keys

  /** `name.replace(/[^a-z0-9]/gi, '_')`: every character outside [A-Za-z0-9] becomes `_`. */
  function Underscored(name: string): string
  {
    seq(|name|, i requires 0 <= i < |name| => if IsAsciiAlnum(name[i]) then name[i] else '_')
  }

  /** The characters a lower-cased sanitised name is made of: [a-z0-9_]. */
  predicate IsKeyChar(c: char)
  {
    IsLowerLetter(c) || IsDigit(c) || c == '_'
  }

  /** `name.replace(/[^a-z0-9]/gi, '_').toLowerCase()`. The result has the length of the name,
      keeps digits, lower-cases letters and turns everything else into `_`. */
  function Sanitize(name: string): (r: string)
    ensures |r| == |name|
    ensures forall i :: 0 <= i < |r| ==> IsKeyChar(r[i])
    ensures forall i :: 0 <= i < |r| ==> (IsAsciiAlnum(name[i]) ==> r[i] == LowerChar(name[i]))
    ensures forall i :: 0 <= i < |r| ==> (!IsAsciiAlnum(name[i]) ==> r[i] == '_')
  {
    Lower(Underscored(name))
  }

  /** `filename.split('.').pop()`: the text after the last `.`, or the whole name without one. */
  function FileExtension(filename: string): (ext: string)
    ensures '.' !in ext
    ensures |ext| <= |filename| && filename[|filename| - |ext|..] == ext
    ensures '.' in filename ==> |ext| < |filename| && filename[|filename| - |ext| - 1] == '.'
    ensures '.' !in filename ==> ext == filename
  {
    LastPieceIsSuffix(filename, '.');
    LastPiece(filename, '.')
  }

  /** `${token}_${timestamp}.${ext}`. */
  function StorageKey(token: string, timestamp: nat, ext: string): string
  {
    token + "_" + NatToString(timestamp) + "." + ext
  }

  /** The key `uploadImage` stores a photo under (services/supabase.js:31-33). */
  function UploadKey(fullName: string, timestamp: nat, originalName: string): string
  {
    StorageKey(Sanitize(fullName), timestamp, FileExtension(originalName))
  }

  /** Sanitising twice is sanitising once. */
  lemma SanitizeIdempotent(name: string)
    ensures Sanitize(Sanitize(name)) == Sanitize(name)
  {
    var s := Sanitize(name);
    forall i | 0 <= i < |s| ensures Sanitize(s)[i] == s[i] {
      assert IsKeyChar(s[i]);
    }
  }

  /** The extension of `head.ext` is `ext` when `ext` has no `.`. */
  lemma ExtensionAfterLastDot(head: string, ext: string)
    requires '.' !in ext
    ensures FileExtension(head + "." + ext) == ext
  {
    var name := head + "." + ext;
    var e := FileExtension(name);
    assert name[|name| - |ext| - 1] == '.';
    assert '.' in name;
  }

  /** The extension of a storage key is the extension it was built with. */
  lemma StorageKeyExtension(token: string, timestamp: nat, ext: string)
    requires '.' !in ext
    ensures FileExtension(StorageKey(token, timestamp, ext)) == ext
  {
    ExtensionAfterLastDot(token + "_" + NatToString(timestamp), ext);
  }

  /** A storage key starts with its token followed by `_`. */
  lemma StorageKeyPrefix(token: string, timestamp: nat, ext: string)
    ensures var key := StorageKey(token, timestamp, ext);
      |key| > |token| && key[..|token|] == token && key[|token|] == '_'
  {
    var key := StorageKey(token, timestamp, ext);
    assert key == token + ("_" + NatToString(timestamp) + "." + ext);
  }

  /** Everything in a storage key before the `.` of its extension is in [a-z0-9_] when the token
      is. */
  lemma StorageKeyChars(token: string, timestamp: nat, ext: string)
    requires forall i :: 0 <= i < |token| ==> IsKeyChar(token[i])
    ensures var key := StorageKey(token, timestamp, ext);
      && |key| == |token| + 1 + |NatToString(timestamp)| + 1 + |ext|
      && key[|key| - |ext| - 1] == '.'
      && forall i :: 0 <= i < |key| - |ext| - 1 ==> IsKeyChar(key[i])
  {
    var digits := NatToString(timestamp);
    var head := token + "_" + digits;
    assert StorageKey(token, timestamp, ext) == head + "." + ext;
    forall i | 0 <= i < |head| ensures IsKeyChar(head[i]) {
      if i > |token| {
        assert head[i] == digits[i - |token| - 1];
      }
    }
  }

  /** An upload key has the shape `<sanitised name>_<digits>.<ext>`: it starts with the sanitised
      name, keeps the extension of the original file name, and everything before that extension
      is in [a-z0-9_]. */
  lemma UploadKeyShape(fullName: string, timestamp: nat, originalName: string)
    ensures var key := UploadKey(fullName, timestamp, originalName);
      var ext := FileExtension(originalName);
      && key[..|fullName|] == Sanitize(fullName)
      && key[|fullName|] == '_'
      && FileExtension(key) == ext
      && |key| == |fullName| + 1 + |NatToString(timestamp)| + 1 + |ext|
      && (forall i :: 0 <= i < |key| - |ext| - 1 ==> IsKeyChar(key[i]))
      && key[|key| - |ext| - 1] == '.'
  {
    var san := Sanitize(fullName);
    var ext := FileExtension(originalName);
    var key := UploadKey(fullName, timestamp, originalName);
    assert key == StorageKey(san, timestamp, ext);
    assert |san| == |fullName|;
    assert key[..|fullName|] == san && key[|fullName|] == '_' by {
      StorageKeyPrefix(san, timestamp, ext);
    }
    assert FileExtension(key) == ext by {
      StorageKeyExtension(san, timestamp, ext);
    }
    assert forall i :: 0 <= i < |san| ==> IsKeyChar(san[i]);
    StorageKeyChars(san, timestamp, ext);
  }

  // ---------------------------------------------------------------------------
  // Public URLs and their parsing (deleteStaff)

  /** The characters a URL path may carry without being percent-encoded or cutting the path. */
  predicate IsUrlPathChar(c: char)
  {
    IsAsciiAlnum(c) || c == '-' || c == '_' || c == '.' || c == '~' || c == '/'
  }

  /** A bucket name: one non-empty path segment. */
  predicate IsSegment(s: string)
  {
    s != "" && forall k :: 0 <= k < |s| ==> IsUrlPathChar(s[k]) && s[k] != '/'
  }

  /** An object path: URL-safe characters and no empty `/`-separated segment. */
  predicate IsObjectPath(s: string)
  {
    && (forall k :: 0 <= k < |s| ==> IsUrlPathChar(s[k]))
    && (forall k :: 0 <= k < |Split(s, '/')| ==> Split(s, '/')[k] != "")
  }

  /** The URL the storage client hands out for a public object:
      `<base>/storage/v1/object/public/<bucket>/<path>`. */
  function PublicUrl(base: string, bucket: string, path: string): string
  {
    base + Join(["", "storage", "v1", "object", "public", bucket, path], '/')
  }

  predicate IsSchemeText(s: string)
  {
    && |s| >= 1 && (IsUpper(s[0]) || IsLowerLetter(s[0]))
    && forall k :: 0 <= k < |s| ==> IsAsciiAlnum(s[k]) || s[k] == '+' || s[k] == '-' || s[k] == '.'
  }

  /** A base URL with a scheme and a host and nothing else, such as `https://x.supabase.co`. */
  predicate IsOrigin(base: string)
  {
    exists i :: 0 <= i && i + 3 < |base| && IsOriginSplit(base, i)
  }

  predicate IsOriginSplit(base: string, i: nat)
  {
    && i + 3 < |base|
    && IsSchemeText(base[..i])
    && base[i..i + 3] == "://"
    && forall k :: i + 3 <= k < |base| ==> base[k] != '/' && base[k] != '?' && base[k] != '#'
  }

  /** The first index at or after `from` whose character is in `stop`, or `|s|`. */
  function FirstOf(s: string, stop: set<char>, from: nat): (r: nat)
    requires from <= |s|
    ensures from <= r <= |s|
    ensures forall k :: from <= k < r ==> s[k] !in stop
    ensures r < |s| ==> s[r] in stop
    decreases |s| - from
  {
    if from == |s| || s[from] in stop then from else FirstOf(s, stop, from + 1)
  }

  /** `new URL(url).pathname` for a URL of the form `scheme://host/path?query#fragment`;
      `None` where the constructor throws. */
  function Pathname(url: string): Option<string>
  {
    match IndexOf(url, "://")
    case None => None
    case Some(i) =>
      if !IsSchemeText(url[..i]) then None
      else
        var hostEnd := FirstOf(url, {'/', '?', '#'}, i + 3);
        if hostEnd == i + 3 then None
        else
          var pathEnd := FirstOf(url, {'?', '#'}, hostEnd);
          var path := url[hostEnd..pathEnd];
          Some(if path == "" then "/" else path)
  }

  /** The bucket and path `deleteStaff` recovers from a picture URL: the path segments are split
      at `/` and empty ones dropped; the bucket is the segment after the first `public`, the path is
      every later segment joined by `/`; both must be non-empty. `None` means no removal. */
  function ParsePictureUrl(url: string): (r: Option<(string, string)>)
    ensures r.Some? ==> r.value.0 != "" && r.value.1 != "" && '/' !in r.value.0
  {
    match Pathname(url)
    case None => None
    case Some(path) =>
      var parts := NonEmpty(Split(path, '/'));
      PiecesHaveNoSeparator(path, '/');
      match FirstIndex(parts, "public")
      case None => None
      case Some(idx) =>
        if idx + 1 < |parts| then
          var bucket := parts[idx + 1];
          var objectPath := Join(parts[idx + 2..], '/');
          if bucket != "" && objectPath != "" then Some((bucket, objectPath)) else None
        else None
  }

  lemma PiecesHaveNoSeparator(s: string, c: char)
    ensures forall k :: 0 <= k < |NonEmpty(Split(s, c))| ==> c !in NonEmpty(Split(s, c))[k]
  {
    var pieces := Split(s, c);
    var parts := NonEmpty(pieces);
    forall k | 0 <= k < |parts| ensures c !in parts[k] {
      assert parts[k] in pieces;
      var j :| 0 <= j < |pieces| && pieces[j] == parts[k];
    }
  }

  lemma OriginSplitUnique(base: string, i: nat, rest: string)
    requires IsOriginSplit(base, i)
    ensures IndexOf(base + rest, "://") == Some(i)
  {
    var url := base + rest;
    assert OccursAt(url, "://", i) by {
      assert url[i..i + 3] == base[i..i + 3];
    }
    forall k | 0 <= k < i ensures !OccursAt(url, "://", k) {
      assert url[k] == base[..i][k];
    }
  }

  lemma PathnameOfPublicUrl(base: string, i: nat, p: string)
    requires IsOriginSplit(base, i)
    requires |p| >= 1 && p[0] == '/'
    requires forall k :: 0 <= k < |p| ==> p[k] != '?' && p[k] != '#'
    ensures Pathname(base + p) == Some(p)
  {
    var url := base + p;
    assert IndexOf(url, "://") == Some(i) by {
      OriginSplitUnique(base, i, p);
    }
    assert IsSchemeText(url[..i]) by {
      assert url[..i] == base[..i];
    }
    assert FirstOf(url, {'/', '?', '#'}, i + 3) == |base| by {
      HostEndsAtPath(base, i, p);
    }
    assert FirstOf(url, {'?', '#'}, |base|) == |url| by {
      PathRunsToEnd(base, p);
    }
    assert url[|base|..|url|] == p;
  }

  /** The host of `base + p` ends where `p` begins. */
  lemma HostEndsAtPath(base: string, i: nat, p: string)
    requires IsOriginSplit(base, i)
    requires |p| >= 1 && p[0] == '/'
    ensures FirstOf(base + p, {'/', '?', '#'}, i + 3) == |base|
  {
    var url := base + p;
    assert url[|base|] == '/';
    forall k | i + 3 <= k < |base| ensures url[k] !in {'/', '?', '#'} {
      assert url[k] == base[k];
    }
  }

  /** Without `?` or `#` in `p`, the path of `base + p` runs to its end. */
  lemma PathRunsToEnd(base: string, p: string)
    requires forall k :: 0 <= k < |p| ==> p[k] != '?' && p[k] != '#'
    ensures FirstOf(base + p, {'?', '#'}, |base|) == |base + p|
  {
    var url := base + p;
    forall k | |base| <= k < |url| ensures url[k] !in {'?', '#'} {
      assert url[k] == p[k - |base|];
    }
  }

  lemma UrlCharsAvoid(s: string)
    requires forall k :: 0 <= k < |s| ==> IsUrlPathChar(s[k])
    ensures '?' !in s && '#' !in s
  {
    forall k | 0 <= k < |s| ensures s[k] != '?' && s[k] != '#' {
      assert IsUrlPathChar(s[k]);
    }
  }

  /** The path part of a public URL starts with `/` and holds no `?` or `#`. */
  lemma PublicPathShape(bucket: string, path: string)
    requires IsSegment(bucket)
    requires IsObjectPath(path)
    ensures var p := Join(["", "storage", "v1", "object", "public", bucket, path], '/');
      && |p| >= 1 && p[0] == '/'
      && forall k :: 0 <= k < |p| ==> p[k] != '?' && p[k] != '#'
  {
    var parts := ["", "storage", "v1", "object", "public", bucket, path];
    UrlCharsAvoid(bucket);
    UrlCharsAvoid(path);
    JoinAvoids(parts, '/', '?');
    JoinAvoids(parts, '/', '#');
    var p := Join(parts, '/');
    assert p == "/" + Join(parts[1..], '/');
    forall k | 0 <= k < |p| ensures p[k] != '?' && p[k] != '#' {
      assert p[k] in p;
    }
  }

  /** The non-empty segments of a public URL's path: the fixed prefix, the bucket, then the
      segments of the object path. */
  lemma PublicPathSegments(bucket: string, path: string)
    requires IsSegment(bucket)
    requires IsObjectPath(path)
    ensures NonEmpty(Split(Join(["", "storage", "v1", "object", "public", bucket, path], '/'), '/'))
         == ["storage", "v1", "object", "public", bucket] + Split(path, '/')
  {
    var prefix := ["", "storage", "v1", "object", "public", bucket];
    var segs := Split(path, '/');
    assert prefix + [path] == ["", "storage", "v1", "object", "public", bucket, path];
    PublicPrefixSplits(bucket, path);
    assert prefix[1..] == ["storage", "v1", "object", "public", bucket];
    assert NonEmpty(prefix + segs) == prefix[1..] + segs by {
      assert forall k :: 1 <= k < |prefix| ==> prefix[k] != "";
      assert forall k :: 0 <= k < |segs| ==> segs[k] != "";
      NonEmptyPrefix(prefix, segs);
    }
  }

  /** Splitting the joined public path gives the prefix pieces, then the object path's pieces. */
  lemma PublicPrefixSplits(bucket: string, path: string)
    requires IsSegment(bucket)
    ensures var prefix := ["", "storage", "v1", "object", "public", bucket];
      Split(Join(prefix + [path], '/'), '/') == prefix + Split(path, '/')
  {
    var prefix := ["", "storage", "v1", "object", "public", bucket];
    forall k | 0 <= k < |prefix| ensures '/' !in prefix[k] {
      if k == 5 {
        forall j | 0 <= j < |bucket| ensures bucket[j] != '/' {
          assert IsUrlPathChar(bucket[j]) && bucket[j] != '/';
        }
      }
    }
    SplitJoinLast(prefix, path, '/');
  }

  /** Dropping empty pieces removes the leading "" and keeps pieces that are all non-empty. */
  lemma NonEmptyPrefix(prefix: seq<string>, segs: seq<string>)
    requires prefix != [] && prefix[0] == ""
    requires forall k :: 1 <= k < |prefix| ==> prefix[k] != ""
    requires forall k :: 0 <= k < |segs| ==> segs[k] != ""
    ensures NonEmpty(prefix + segs) == prefix[1..] + segs
  {
    var named := prefix[1..];
    assert NonEmpty(prefix + segs) == NonEmpty(prefix) + NonEmpty(segs) by {
      NonEmptyAppend(prefix, segs);
    }
    assert NonEmpty(segs) == segs by {
      NonEmptyKeepsAll(segs);
    }
    assert NonEmpty(prefix) == named by {
      NonEmptyKeepsAll(named);
    }
  }

  lemma FirstPublicSegment(bucket: string, segs: seq<string>)
    ensures FirstIndex(["storage", "v1", "object", "public", bucket] + segs, "public") == Some(3)
  {
    var parts := ["storage", "v1", "object", "public", bucket] + segs;
    assert parts[0] == "storage" && parts[1] == "v1" && parts[2] == "object" && parts[3] == "public";
    var r := FirstIndex(parts, "public");
    assert r.Some?;
    assert r.value <= 3;
  }

  /** The URL handed out for an uploaded object parses back to its bucket and path: the cleanup in
      `deleteStaff` targets exactly the object the upload stored. */
  lemma {:induction false} PictureUrlRoundTrip(base: string, bucket: string, path: string)
    requires IsOrigin(base)
    requires IsSegment(bucket)
    requires IsObjectPath(path) && path != ""
    ensures ParsePictureUrl(PublicUrl(base, bucket, path)) == Some((bucket, path))
  {
    var i :| 0 <= i && i + 3 < |base| && IsOriginSplit(base, i);
    var p := Join(["", "storage", "v1", "object", "public", bucket, path], '/');
    PublicPathShape(bucket, path);
    PathnameOfPublicUrl(base, i, p);
    PublicPathSegments(bucket, path);
    var segs := Split(path, '/');
    var parts := ["storage", "v1", "object", "public", bucket] + segs;
    FirstPublicSegment(bucket, segs);
    assert parts[5..] == segs;
    JoinSplit(path, '/');
  }

  // ---------------------------------------------------------------------------
  // The service object

  /** The environment variables the service reads; `None` where a variable is unset. */
  datatype Env = Env(supabaseUrl: Option<string>, supabaseKey: Option<string>, serviceKey: Option<string>)

  /** `a || b` on optional strings. */
  function Or(a: Option<string>, b: Option<string>): Option<string>
  {
    if Truthy(a) then a else b
  }

  const MissingCredentials := "Missing Supabase credentials in .env"
  const UploadFailedPrefix := "Failed to upload to Supabase: "
  const SaveFailedPrefix := "Failed to save to Supabase: "
  const FetchFailedPrefix := "Failed to fetch staff records: "
  const DeleteFailedPrefix := "Failed to delete staff: "

  /** The file multer staged: original name, MIME type, path of the temp file, size in bytes. */
  datatype StagedFile = StagedFile(originalName: string, mimetype: string, path: string, size: nat)

  datatype UploadResult = UploadResult(path: string, shareableLink: string)

  /** The camelCase object `saveStaffData` receives. */
  datatype StaffData = StaffData(
    fullName: string,
    resumptionDate: string,
    exitDate: string,
    location: string,
    designation: string,
    hiringOfficer: string,
    pictureUrl: string)

  /** The row `saveStaffData` inserts: each of the seven columns from its camelCase field. */
  function RowOf(data: StaffData): (row: NewRow)
    ensures row.fullName == data.fullName && row.resumptionDate == data.resumptionDate
    ensures row.exitDate == data.exitDate && row.location == data.location
    ensures row.designation == data.designation && row.hiringOfficer == data.hiringOfficer
    ensures row.pictureUrl == data.pictureUrl
  {
    NewRow(data.fullName, data.resumptionDate, data.exitDate, data.location, data.designation,
           data.hiringOfficer, data.pictureUrl)
  }

  /** What `deleteStaff` tries to remove for a picture URL: nothing for a missing URL. */
  function CleanupTarget(pictureUrl: Option<string>): Option<(string, string)>
  {
    if Truthy(pictureUrl) then ParsePictureUrl(pictureUrl.value) else None
  }

  function CleanupCalls(pictureUrl: Option<string>): seq<Call>
  {
    match CleanupTarget(pictureUrl)
    case None => []
    case Some((bucket, path)) => [RemoveCall(bucket, path)]
  }

  class Service {
    const url: Option<string>
    const key: Option<string>
    /** Whether `this.client` has been created. */
    var client: bool

    predicate CredentialsPresent()
    {
      Truthy(url) && Truthy(key)
    }

    /** A client exists only if the credentials were there to create it. */
    ghost predicate Valid()
      reads this
    {
      client ==> CredentialsPresent()
    }

    /** The service key is preferred over the anonymous key. */
    constructor (env: Env)
      ensures url == env.supabaseUrl && key == Or(env.serviceKey, env.supabaseKey)
      ensures !client && Valid()
    {
      url := env.supabaseUrl;
      key := Or(env.serviceKey, env.supabaseKey);
      client := false;
    }

    /** `initialize()`: throws when the URL or the key is missing. */
    method Initialize() returns (err: Option<string>)
      requires Valid()
      modifies this
      ensures Valid()
      ensures err == if CredentialsPresent() then None else Some(MissingCredentials)
      ensures client == (old(client) || CredentialsPresent())
    {
      if !CredentialsPresent() {
        err := Some(MissingCredentials);
      } else {
        client := true;
        err := None;
      }
    }

    /** `if (!this.client) this.initialize();`, the first step of every operation. */
    method EnsureClient() returns (err: Option<string>)
      requires Valid()
      modifies this
      ensures Valid()
      ensures client == CredentialsPresent()
      ensures err == if CredentialsPresent() then None else Some(MissingCredentials)
    {
      err := None;
      if !client {
        err := Initialize();
      }
    }

    /** `uploadImage(file, fullName)`: stores the staged file's bytes under the derived key with
        `upsert: false` and returns the key and its public URL; any storage error is wrapped. */
    method UploadImage(remote: Remote, file: StagedFile, content: Bytes, fullName: string,
                       now: nat, fault: Option<string>) returns (r: Result<UploadResult>)
      requires Valid()
      modifies this, remote
      ensures Valid()
      ensures !CredentialsPresent() ==> r == Failure(MissingCredentials) && unchanged(remote)
      ensures CredentialsPresent() ==>
        var k := UploadKey(fullName, now, file.originalName);
        && remote.calls == old(remote.calls) + [UploadCall(PhotoBucket, k)]
        && remote.rows == old(remote.rows) && remote.nextId == old(remote.nextId)
        && (r.Success? <==> fault.None? && !HasObject(old(remote.objects), PhotoBucket, k))
        && (r.Success? ==> && r.value == UploadResult(k, PublicUrl(url.value, PhotoBucket, k))
                           && remote.objects == Put(old(remote.objects), PhotoBucket, k, content))
        && (r.Failure? ==> && remote.objects == old(remote.objects)
                           && r.error == UploadFailedPrefix + (if fault.Some? then fault.value else DuplicateMessage))
    {
      var initErr := EnsureClient();
      if initErr.Some? {
        return Failure(initErr.value);
      }
      var fileExt := FileExtension(file.originalName);
      var fileName := StorageKey(Sanitize(fullName), now, fileExt);
      var err := remote.Upload(PhotoBucket, fileName, content, fault);
      if err.Some? {
        return Failure(UploadFailedPrefix + err.value);
      }
      r := Success(UploadResult(fileName, PublicUrl(url.value, PhotoBucket, fileName)));
    }

    /** `saveStaffData(staffData)`: inserts one row and returns it. */
    method SaveStaffData(remote: Remote, data: StaffData, now: nat, fault: Option<string>)
      returns (r: Result<StaffRecord>)
      requires Valid() && remote.Valid()
      modifies this, remote
      ensures Valid() && remote.Valid()
      ensures !CredentialsPresent() ==> r == Failure(MissingCredentials) && unchanged(remote)
      ensures remote.nextId == old(remote.nextId) + (if r.Success? then 1 else 0)
      ensures CredentialsPresent() ==>
        && remote.calls == old(remote.calls) + [InsertCall(RowOf(data))]
        && remote.objects == old(remote.objects)
        && (r.Success? <==> fault.None?)
        && (r.Success? ==> && r.value == Created(RowOf(data), old(remote.nextId), now)
                           && remote.rows == old(remote.rows) + [r.value])
        && (r.Failure? ==> remote.rows == old(remote.rows) && r.error == SaveFailedPrefix + fault.value)
    {
      var initErr := EnsureClient();
      if initErr.Some? {
        return Failure(initErr.value);
      }
      var res := remote.Insert(RowOf(data), now, fault);
      if res.Failure? {
        return Failure(SaveFailedPrefix + res.error);
      }
      r := Success(res.value);
    }

    /** `getAllStaff()`: every row, newest `created_at` first. */
    method GetAllStaff(remote: Remote, fault: Option<string>) returns (r: Result<seq<StaffRecord>>)
      requires Valid()
      modifies this, remote
      ensures Valid()
      ensures remote.objects == old(remote.objects) && remote.rows == old(remote.rows)
      ensures remote.nextId == old(remote.nextId)
      ensures !CredentialsPresent() ==> r == Failure(MissingCredentials) && remote.calls == old(remote.calls)
      ensures CredentialsPresent() ==>
        && remote.calls == old(remote.calls) + [SelectCall]
        && (r.Success? <==> fault.None?)
        && (r.Success? ==> SortedByCreatedDesc(r.value) && multiset(r.value) == multiset(remote.rows))
        && (r.Failure? ==> r.error == FetchFailedPrefix + fault.value)
    {
      var initErr := EnsureClient();
      if initErr.Some? {
        return Failure(initErr.value);
      }
      var res := remote.SelectAll(fault);
      if res.Failure? {
        return Failure(FetchFailedPrefix + res.error);
      }
      r := Success(res.value);
    }

    /** `deleteStaff(id, pictureUrl)`: removes the photo if its URL parses (a removal error is only
        logged), then deletes the row; only the row delete can make it fail. */
    method DeleteStaff(remote: Remote, id: nat, pictureUrl: Option<string>,
                       removeFault: Option<string>, deleteFault: Option<string>) returns (r: Result<()>)
      requires Valid() && remote.Valid()
      modifies this, remote
      ensures Valid() && remote.Valid()
      ensures !CredentialsPresent() ==> r == Failure(MissingCredentials) && unchanged(remote)
      ensures remote.nextId == old(remote.nextId)
      ensures CredentialsPresent() ==>
        && remote.calls == old(remote.calls) + CleanupCalls(pictureUrl) + [DeleteCall(id)]
        && (r.Success? <==> deleteFault.None?)
        && (r.Failure? ==> r.error == DeleteFailedPrefix + deleteFault.value)
        && remote.rows == (if deleteFault.None? then DeleteRows(old(remote.rows), id) else old(remote.rows))
        && remote.objects == match CleanupTarget(pictureUrl)
                             case Some((bucket, path)) =>
                               if removeFault.None? then Without(old(remote.objects), bucket, path)
                               else old(remote.objects)
                             case None => old(remote.objects)
    {
      var initErr := EnsureClient();
      if initErr.Some? {
        return Failure(initErr.value);
      }
      if Truthy(pictureUrl) {
        var target := ParsePictureUrl(pictureUrl.value);
        if target.Some? {
          var (bucket, path) := target.value;
          var storageError := remote.Remove(bucket, path, removeFault);
        }
      }
      var err := remote.Delete(id, deleteFault);
      if err.Some? {
        return Failure(DeleteFailedPrefix + err.value);
      }
      r := Success(());
    }
  }
}
