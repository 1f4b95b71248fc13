/**
 * The control logic of the Azure Blob Storage output
 * (`lib/output/writer/blob_storage.go`): construction, the credential check
 * and container URL of `getContainer`, the blob-type dispatch of
 * `uploadToBlob`, the "not found" test on upload errors, and the write loop
 * that stops at the first failing part.
 *
 * The storage service is an oracle: each upload is answered with the error it
 * returns, if any, and every call the writer makes is recorded in order.
 */
module BlobStorage {
  import opened Wrappers
  import opened Text
  import opened Message

  /** The fields of `AzureBlobStorageConfig` the writer reads. */
  datatype Config = Config(
    storageAccount: string,
    storageAccessKey: string,
    container: string,
    path: string,
    blobType: string,
    timeout: string)

  /** A constructed writer: its configuration and its timeout in nanoseconds. */
  datatype Writer = Writer(conf: Config, timeout: int)

  // ---------------------------------------------------------------------------
  // Construction
  // ---------------------------------------------------------------------------

  /**
   * `NewAzureBlobStorage`: an empty timeout string leaves the timeout at zero
   * (which `WriteWithContext` hands to `context.WithTimeout`, giving a context
   * that has already expired), a non-empty one must parse; then the container, path and blob type
   * expressions must parse, in that order. The first failure is reported,
   * wrapped with what was being parsed.
   */
  function NewAzureBlobStorage(conf: Config, parseDuration: string -> Result<int, string>, parseField: string -> Option<string>): (r: Result<Writer, string>)
    ensures conf.timeout != "" && parseDuration(conf.timeout).Failure? ==>
      r == Failure("failed to parse timeout period string: " + parseDuration(conf.timeout).error)
    ensures r.Success? ==> r.value.conf == conf
    ensures r.Success? ==> r.value.timeout == if conf.timeout == "" then 0 else parseDuration(conf.timeout).value
    ensures r.Success? <==>
      && (conf.timeout == "" || parseDuration(conf.timeout).Success?)
      && parseField(conf.container).None? && parseField(conf.path).None? && parseField(conf.blobType).None?
  {
    var timeout :=
      if conf.timeout == "" then Success(0)
      else match parseDuration(conf.timeout)
        case Failure(e) => Failure("failed to parse timeout period string: " + e)
        case Success(d) => Success(d);
    if timeout.Failure? then Failure(timeout.error)
    else if parseField(conf.container).Some? then Failure("failed to parse container expression: " + parseField(conf.container).value)
    else if parseField(conf.path).Some? then Failure("failed to parse path expression: " + parseField(conf.path).value)
    else if parseField(conf.blobType).Some? then Failure("failed to parse blob type expression: " + parseField(conf.blobType).value)
    else Success(Writer(conf, timeout.value))
  }

  /** An empty timeout string gives a zero timeout whatever the duration parser would say. */
  lemma EmptyTimeoutIsZero(conf: Config, parseDuration: string -> Result<int, string>, parseField: string -> Option<string>)
    requires conf.timeout == ""
    requires parseField(conf.container).None? && parseField(conf.path).None? && parseField(conf.blobType).None?
    ensures NewAzureBlobStorage(conf, parseDuration, parseField) == Success(Writer(conf, 0))
  {
  }

  /** The field expressions are parsed in order: a bad container expression is reported even when the later ones are bad too. */
  lemma FieldErrorOrder(conf: Config, parseDuration: string -> Result<int, string>, parseField: string -> Option<string>)
    requires conf.timeout == "" || parseDuration(conf.timeout).Success?
    ensures var r := NewAzureBlobStorage(conf, parseDuration, parseField);
      && (parseField(conf.container).Some? ==> r == Failure("failed to parse container expression: " + parseField(conf.container).value))
      && (parseField(conf.container).None? && parseField(conf.path).Some? ==> r == Failure("failed to parse path expression: " + parseField(conf.path).value))
  {
  }

  // ---------------------------------------------------------------------------
  // The container
  // ---------------------------------------------------------------------------

  const Scheme := "https://"
  const BlobHost := ".blob.core.windows.net/"

  /** The container URL string `getContainer` builds for an account and a container name. */
  function ContainerURL(account: string, name: string): (u: string)
    ensures HasPrefix(u, "https://" + account + ".blob.core.windows.net/")
    ensures |name| <= |u| && u[|u| - |name|..] == name
  {
    Join(Scheme, account, BlobHost, name)
  }

  /** Reads the account and the container name back out of a container URL. */
  function ParseContainerURL(u: string): (r: Option<(string, string)>)
    ensures r.Some? ==> '.' !in r.value.0 && ContainerURL(r.value.0, r.value.1) == u
  {
    SplitJoined(u, Scheme, BlobHost);
    Split(u, Scheme, BlobHost)
  }

  /** For an account name without a dot, the URL determines the account and the container. */
  lemma ContainerURLRoundTrip(account: string, name: string)
    requires '.' !in account
    ensures ParseContainerURL(ContainerURL(account, name)) == Some((account, name))
  {
    assert BlobHost[0] == '.';
    JoinSplit(Scheme, account, BlobHost, name);
  }

  /** `pre`, then `a`, then a separator starting with a dot, then `b`. */
  function Join(pre: string, a: string, sep: string, b: string): string
  {
    pre + a + sep + b
  }

  /** Undo Join: after the prefix, `a` runs up to the first dot, where the separator must follow. */
  function Split(u: string, pre: string, sep: string): Option<(string, string)>
  {
    if !HasPrefix(u, pre) then None
    else
      var rest := u[|pre|..];
      var i := IndexOf(rest, '.');
      if i < 0 || !HasPrefix(rest[i..], sep) then None
      else Some((rest[..i], rest[i + |sep|..]))
  }

  lemma SplitJoined(u: string, pre: string, sep: string)
    ensures var r := Split(u, pre, sep);
      r.Some? ==> '.' !in r.value.0 && Join(pre, r.value.0, sep, r.value.1) == u
  {
    if Split(u, pre, sep).Some? {
      PrefixSplit(u, pre);
      var rest := u[|pre|..];
      var i := IndexOf(rest, '.');
      var tail := rest[i..];
      PrefixSplit(tail, sep);
      assert tail[|sep|..] == rest[i + |sep|..];
      assert rest == rest[..i] + tail;
      Regroup(u, pre, rest, rest[..i], tail, sep, rest[i + |sep|..]);
    }
  }

  lemma Regroup(u: string, pre: string, rest: string, x: string, tail: string, sep: string, y: string)
    requires u == pre + rest && rest == x + tail && tail == sep + y
    ensures u == Join(pre, x, sep, y)
  {
  }

  lemma JoinSplit(pre: string, a: string, sep: string, b: string)
    requires '.' !in a && |sep| > 0 && sep[0] == '.'
    ensures Split(Join(pre, a, sep, b), pre, sep) == Some((a, b))
  {
    var u := Join(pre, a, sep, b);
    var tail := sep + b;
    var rest := a + tail;
    assert u == pre + rest;
    assert u[..|pre|] == pre && u[|pre|..] == rest;
    assert rest[..|a|] == a && rest[|a|..] == tail;
    assert rest[|a|] == tail[0] == '.';
    IndexOfFirst(rest, '.', |a|);
    assert tail[..|sep|] == sep && tail[|sep|..] == b;
    assert rest[|a| + |sep|..] == tail[|sep|..];
  }

  /** A container handle: the URL it addresses. */
  datatype Container = Container(url: string)

  const BadCredentials := "invalid azure storage account credentials"

  /**
   * `getContainer`: an empty account name or key is refused before anything
   * else; a key the shared-key credential rejects is refused with that
   * error; otherwise the handle addresses the container under the account.
   */
  function GetContainer(conf: Config, name: string, newCredential: (string, string) -> Option<string>): (r: Result<Container, string>)
    ensures conf.storageAccount == [] || conf.storageAccessKey == [] ==> r == Failure(BadCredentials)
    ensures conf.storageAccount != [] && conf.storageAccessKey != [] ==>
      r == match newCredential(conf.storageAccount, conf.storageAccessKey)
        case Some(e) => Failure(BadCredentials + ": " + e)
        case None => Success(Container(ContainerURL(conf.storageAccount, name)))
  {
    var account, key := conf.storageAccount, conf.storageAccessKey;
    if |account| == 0 || |key| == 0 then Failure(BadCredentials)
    else
      match newCredential(account, key)
      case Some(e) => Failure(BadCredentials + ": " + e)
      case None => Success(Container(ContainerURL(account, name)))
  }

  // ---------------------------------------------------------------------------
  // Uploads
  // ---------------------------------------------------------------------------

  datatype UploadMode = Block | Append

  /** The `switch` of `uploadToBlob`: "BLOCK" and "APPEND" select an upload, anything else none. */
  function UploadModeOf(blobType: string): (m: Option<UploadMode>)
    ensures m.Some? ==> blobType == "BLOCK" || blobType == "APPEND"
  {
    if blobType == "BLOCK" then Some(Block)
    else if blobType == "APPEND" then Some(Append)
    else None
  }

  /** Only the two exact type names upload anything. */
  lemma UploadDispatch(blobType: string)
    ensures UploadModeOf(blobType) == Some(Block) <==> blobType == "BLOCK"
    ensures UploadModeOf(blobType) == Some(Append) <==> blobType == "APPEND"
    ensures UploadModeOf(blobType).None? <==> blobType != "BLOCK" && blobType != "APPEND"
  {
  }

  /** An error from the storage service: a typed storage error with its service code, or any other error with its message. */
  datatype BlobError = StorageError(code: string, message: string) | OtherError(message: string)

  const ContainerNotFoundCode := "ContainerNotFound"

  /**
   * `containerNotFound`: a storage error is "not found" when its service code
   * says so; any other error when its message contains the code's name.
   */
  function ContainerNotFound(err: BlobError): (b: bool)
    ensures err.StorageError? ==> (b <==> err.code == ContainerNotFoundCode)
    ensures err.OtherError? ==> (b <==> exists i :: OccursAt(err.message, ContainerNotFoundCode, i))
  {
    match err
    case StorageError(code, _) => code == ContainerNotFoundCode
    case OtherError(msg) => Contains(msg, ContainerNotFoundCode)
  }

  /** A wrapped error whose message carries the code anywhere is not-found; a typed error is judged by its code alone, whatever its message says. */
  lemma ContainerNotFoundExamples(before: string, after: string, code: string)
    requires code != ContainerNotFoundCode
    ensures ContainerNotFound(OtherError(before + ContainerNotFoundCode + after))
    ensures !ContainerNotFound(StorageError(code, ContainerNotFoundCode))
    ensures !ContainerNotFound(OtherError(""))
  {
    var m := before + ContainerNotFoundCode + after;
    assert m[|before|..|before| + |ContainerNotFoundCode|] == ContainerNotFoundCode;
    assert OccursAt(m, ContainerNotFoundCode, |before|);
  }

  /** A call the writer makes to the storage service. */
  datatype Call =
    | Upload(container: string, blob: string, mode: UploadMode, payload: Payload)
    | CreateContainer(container: string)

  /** The per-part inputs: the evaluated container, path and blob type expressions, and the services' answers. */
  datatype Env = Env(
    containerName: nat -> string,
    blobPath: nat -> string,
    blobType: nat -> string,
    newCredential: (string, string) -> Option<string>,
    upload: Call -> Option<BlobError>)

  /** The calls a step made, and the error it returns. */
  datatype Step = Step(calls: seq<Call>, err: Option<BlobError>)

  /**
   * The callback for part `i`: get the container, upload according to the
   * blob type, and on an upload error try to create the container only when
   * the error means "not found". The upload error is returned whatever the
   * creation did.
   */
  function PartSpec(conf: Config, i: nat, payload: Payload, env: Env): (s: Step)
    ensures |s.calls| <= 2
    ensures s.err.None? ==> |s.calls| <= 1
  {
    match GetContainer(conf, env.containerName(i), env.newCredential)
    case Failure(e) => Step([], Some(OtherError(e)))
    case Success(c) =>
      match UploadModeOf(env.blobType(i))
      case None => Step([], None)
      case Some(mode) =>
        var up := Upload(c.url, env.blobPath(i), mode, payload);
        match env.upload(up)
        case None => Step([up], None)
        case Some(e) =>
          if ContainerNotFound(e) then Step([up, CreateContainer(c.url)], Some(e))
          else Step([up], Some(e))
  }

  /**
   * The per-part step in full: a credential failure makes no call; an
   * unknown blob type makes no call and succeeds; otherwise exactly one
   * upload of the payload, followed by one creation of the same container
   * exactly when the upload failed with "not found", and the upload's error.
   */
  lemma PartBehaviour(conf: Config, i: nat, payload: Payload, env: Env)
    ensures var s := PartSpec(conf, i, payload, env);
      var g := GetContainer(conf, env.containerName(i), env.newCredential);
      && (g.Failure? ==> s == Step([], Some(OtherError(g.error))))
      && (g.Success? && UploadModeOf(env.blobType(i)).None? ==> s == Step([], None))
      && (g.Success? && UploadModeOf(env.blobType(i)).Some? ==>
            var up := Upload(g.value.url, env.blobPath(i), UploadModeOf(env.blobType(i)).value, payload);
            && 1 <= |s.calls| <= 2
            && s.calls[0] == up
            && s.err == env.upload(up)
            && (|s.calls| == 2 <==> s.err.Some? && ContainerNotFound(s.err.value))
            && (|s.calls| == 2 ==> s.calls[1] == CreateContainer(g.value.url)))
  {
  }

  /** Empty credentials fail every part before any call is made. */
  lemma EmptyCredentialsFail(conf: Config, i: nat, payload: Payload, env: Env)
    requires conf.storageAccount == "" || conf.storageAccessKey == ""
    ensures PartSpec(conf, i, payload, env) == Step([], Some(OtherError(BadCredentials)))
  {
  }

  // ---------------------------------------------------------------------------
  // Writing a batch
  // ---------------------------------------------------------------------------

  /** `msg.Iter` of the callback from part `i` on: parts in index order, stopping at the first error. */
  function WriteFrom(conf: Config, parts: seq<Payload>, env: Env, i: nat): (s: Step)
    requires i <= |parts|
    ensures |s.calls| <= 2 * (|parts| - i)
    decreases |parts| - i
  {
    if i == |parts| then Step([], None)
    else
      var s := PartSpec(conf, i, parts[i], env);
      if s.err.Some? then s
      else
        var rest := WriteFrom(conf, parts, env, i + 1);
        Step(s.calls + rest.calls, rest.err)
  }

  /** The calls of parts `i` up to `k`, all of which succeeded. */
  function CallsBetween(conf: Config, parts: seq<Payload>, env: Env, i: nat, k: nat): seq<Call>
    requires i <= k <= |parts|
    decreases k - i
  {
    if i == k then [] else PartSpec(conf, i, parts[i], env).calls + CallsBetween(conf, parts, env, i + 1, k)
  }

  /**
   * When part `k` is the first to fail, the write returns its error, and
   * the calls made are those of parts up to `k`: nothing is attempted for
   * the parts after it.
   */
  lemma {:induction false} FirstFailureStops(conf: Config, parts: seq<Payload>, env: Env, i: nat, k: nat)
    requires i <= k < |parts|
    requires forall j :: i <= j < k ==> PartSpec(conf, j, parts[j], env).err.None?
    requires PartSpec(conf, k, parts[k], env).err.Some?
    ensures WriteFrom(conf, parts, env, i)
      == Step(CallsBetween(conf, parts, env, i, k) + PartSpec(conf, k, parts[k], env).calls, PartSpec(conf, k, parts[k], env).err)
    decreases k - i
  {
    if i < k {
      FirstFailureStops(conf, parts, env, i + 1, k);
      var s := PartSpec(conf, i, parts[i], env);
      assert s.calls + (CallsBetween(conf, parts, env, i + 1, k) + PartSpec(conf, k, parts[k], env).calls)
          == (s.calls + CallsBetween(conf, parts, env, i + 1, k)) + PartSpec(conf, k, parts[k], env).calls;
    }
  }

  /** The write returns nil exactly when every part's callback succeeds, and then every part's calls are made. */
  lemma {:induction false} AllPartsSucceed(conf: Config, parts: seq<Payload>, env: Env, i: nat)
    requires i <= |parts|
    ensures WriteFrom(conf, parts, env, i).err.None? <==> forall j :: i <= j < |parts| ==> PartSpec(conf, j, parts[j], env).err.None?
    ensures WriteFrom(conf, parts, env, i).err.None? ==> WriteFrom(conf, parts, env, i).calls == CallsBetween(conf, parts, env, i, |parts|)
    decreases |parts| - i
  {
    if i < |parts| {
      AllPartsSucceed(conf, parts, env, i + 1);
    }
  }

  /** `WriteWithContext`: run the callback on each part in turn and return the first error. */
  method WriteWithContext(conf: Config, parts: seq<Payload>, env: Env) returns (err: Option<BlobError>, calls: seq<Call>)
    ensures Step(calls, err) == WriteFrom(conf, parts, env, 0)
  {
    calls := [];
    var i := 0;
    while i < |parts|
      invariant i <= |parts|
      invariant WriteFrom(conf, parts, env, 0).err == WriteFrom(conf, parts, env, i).err
      invariant WriteFrom(conf, parts, env, 0).calls == calls + WriteFrom(conf, parts, env, i).calls
    {
      var s := PartSpec(conf, i, parts[i], env);
      ghost var prev := calls;
      calls := calls + s.calls;
      if s.err.Some? {
        assert WriteFrom(conf, parts, env, i) == s;
        return s.err, calls;
      }
      ghost var rest := WriteFrom(conf, parts, env, i + 1);
      assert WriteFrom(conf, parts, env, i) == Step(s.calls + rest.calls, rest.err);
      assert prev + (s.calls + rest.calls) == calls + rest.calls;
      i := i + 1;
    }
    err := None;
  }
}
