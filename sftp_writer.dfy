/**
 * The control logic of the SFTP output (`lib/output/writer/sftp.go`): the
 * bounded dial loop that opens the connection, the per-record "create or
 * append" write over the remote filesystem, the batch iteration around it,
 * and the host-key callbacks.
 *
 * The SSH and SFTP protocols are oracles: a dial is answered from its attempt
 * number, client creation from the connection, and every remote filesystem
 * step from a `Faults` value naming the error it returns, if any.
 */
module SftpWriter {
  import opened Wrappers
  import opened Text
  import opened Message

  /** The dial loop gives up after this many attempts. */
  const MaxAttempts: nat := 10

  const ConnectFailed := "failed to connect to SFTP server"

  /** An established SSH connection, identified by the attempt that opened it. */
  type Conn = nat

  /** An SFTP client over a connection. */
  datatype SftpClient = SftpClient(conn: Conn)

  // ---------------------------------------------------------------------------
  // Connecting
  // ---------------------------------------------------------------------------

  /** Where the dial loop ends: the connection it got, if any, and the number of the last attempt. */
  datatype DialResult = DialResult(conn: Option<Conn>, attempts: nat)

  /** The dial loop from attempt `attempt` on: stop at the first success, or fail after attempt MaxAttempts. */
  function Dial(dial: nat -> Result<Conn, string>, attempt: nat): (r: DialResult)
    requires 1 <= attempt <= MaxAttempts
    ensures attempt <= r.attempts <= MaxAttempts
    ensures r.conn.None? ==> r.attempts == MaxAttempts
    decreases MaxAttempts - attempt
  {
    match dial(attempt)
    case Success(c) => DialResult(Some(c), attempt)
    case Failure(_) => if attempt == MaxAttempts then DialResult(None, attempt) else Dial(dial, attempt + 1)
  }

  /**
   * The dial loop stops at the first successful attempt, makes at most
   * MaxAttempts attempts, and fails only when every one of them failed.
   */
  lemma {:induction false} DialSpec(dial: nat -> Result<Conn, string>, attempt: nat)
    requires 1 <= attempt <= MaxAttempts
    ensures var r := Dial(dial, attempt);
      && attempt <= r.attempts <= MaxAttempts
      && (forall k :: attempt <= k < r.attempts ==> dial(k).Failure?)
      && (r.conn.Some? <==> dial(r.attempts).Success?)
      && (r.conn.Some? ==> r.conn.value == dial(r.attempts).value)
      && (r.conn.None? ==> r.attempts == MaxAttempts)
    decreases MaxAttempts - attempt
  {
    if dial(attempt).Failure? && attempt < MaxAttempts {
      DialSpec(dial, attempt + 1);
    }
  }

  /** Ten consecutive failed dials, and nothing else, make the connection fail. */
  lemma TenFailures(dial: nat -> Result<Conn, string>)
    ensures Dial(dial, 1).conn.None? <==> forall k :: 1 <= k <= MaxAttempts ==> dial(k).Failure?
  {
    DialSpec(dial, 1);
    var r := Dial(dial, 1);
    if r.conn.Some? {
      assert dial(r.attempts).Success?;
    }
  }

  /** A first success on attempt `k` connects there. */
  lemma FirstSuccess(dial: nat -> Result<Conn, string>, k: nat)
    requires 1 <= k <= MaxAttempts
    requires forall j :: 1 <= j < k ==> dial(j).Failure?
    requires dial(k).Success?
    ensures Dial(dial, 1) == DialResult(Some(dial(k).value), k)
  {
    DialSpec(dial, 1);
  }

  /**
   * `initSFTPConnection`'s loop: dial until a dial succeeds or the tenth one
   * fails, counting each failure in `connection_errors` and pausing after
   * every failure but the last.
   */
  method DialWithRetry(dial: nat -> Result<Conn, string>) returns (conn: Option<Conn>, attempts: nat, connectionErrors: nat, pauses: nat)
    ensures DialResult(conn, attempts) == Dial(dial, 1)
    ensures connectionErrors == (if conn.Some? then attempts - 1 else attempts)
    ensures pauses == attempts - 1
  {
    attempts := 0;
    connectionErrors := 0;
    pauses := 0;
    while true
      invariant 0 <= attempts < MaxAttempts
      invariant Dial(dial, 1) == Dial(dial, attempts + 1)
      invariant connectionErrors == attempts && pauses == attempts
      decreases MaxAttempts - attempts
    {
      attempts := attempts + 1;
      var d := dial(attempts);
      if d.Failure? {
        connectionErrors := connectionErrors + 1;
        if attempts >= MaxAttempts {
          conn := None;
          return;
        }
        pauses := pauses + 1;
      } else {
        conn := Some(d.value);
        return;
      }
    }
  }

  /** The writer's connection state and its two error counters. */
  class Sftp {
    var client: Option<SftpClient>
    var connectionErrors: nat
    var clientErrors: nat

    constructor()
      ensures client == None && connectionErrors == 0 && clientErrors == 0
    {
      client := None;
      connectionErrors := 0;
      clientErrors := 0;
    }

    /**
     * `initSFTPConnection`: dial with retries; on failure report
     * ConnectFailed and leave the client alone; on success create the client,
     * count a creation failure once, store whatever creation returned and
     * report its error.
     */
    method InitConnection(dial: nat -> Result<Conn, string>, newClient: Conn -> Result<SftpClient, string>) returns (err: Option<string>)
      modifies this
      ensures var d := Dial(dial, 1);
        && connectionErrors == old(connectionErrors) + (if d.conn.Some? then d.attempts - 1 else d.attempts)
        && (d.conn.None? ==> err == Some(ConnectFailed) && client == old(client) && clientErrors == old(clientErrors))
        && (d.conn.Some? ==> client == newClient(d.conn.value).ToOption())
        && (d.conn.Some? ==> err == (if newClient(d.conn.value).Failure? then Some(newClient(d.conn.value).error) else None))
        && (d.conn.Some? ==> clientErrors == old(clientErrors) + (if newClient(d.conn.value).Failure? then 1 else 0))
    {
      var conn, attempts, failures, pauses := DialWithRetry(dial);
      connectionErrors := connectionErrors + failures;
      if conn.None? {
        return Some(ConnectFailed);
      }
      var c := newClient(conn.value);
      if c.Failure? {
        clientErrors := clientErrors + 1;
      }
      client := c.ToOption();
      err := if c.Failure? then Some(c.error) else None;
    }
  }

  /** The error `NewSFTP` reports for a given dial loop, client creation and file path parse. */
  function NewSftpError(d: DialResult, newClient: Conn -> Result<SftpClient, string>, filepathErr: Option<string>): (err: Option<string>)
    ensures d.conn.None? ==> err == Some("failed to connect to SFTP server: " + ConnectFailed)
    ensures d.conn.Some? && newClient(d.conn.value).Failure? ==> err == Some("failed to connect to SFTP server: " + newClient(d.conn.value).error)
    ensures d.conn.Some? && newClient(d.conn.value).Success? ==>
      err == (if filepathErr.Some? then Some("failed to parse filepath expression: " + filepathErr.value) else None)
  {
    if d.conn.None? then Some("failed to connect to SFTP server: " + ConnectFailed)
    else if newClient(d.conn.value).Failure? then Some("failed to connect to SFTP server: " + newClient(d.conn.value).error)
    else if filepathErr.Some? then Some("failed to parse filepath expression: " + filepathErr.value)
    else None
  }

  /** `NewSFTP`: connect, then parse the file path expression; either failure is wrapped and no writer is returned. */
  method NewSftp(dial: nat -> Result<Conn, string>, newClient: Conn -> Result<SftpClient, string>, filepathErr: Option<string>)
    returns (s: Sftp?, err: Option<string>)
    ensures err == NewSftpError(Dial(dial, 1), newClient, filepathErr)
    ensures s == null <==> err.Some?
    ensures s != null ==> s.client == Some(newClient(Dial(dial, 1).conn.value).value)
    ensures s != null ==> s.connectionErrors == Dial(dial, 1).attempts - 1 && s.clientErrors == 0
  {
    var w := new Sftp();
    var e := w.InitConnection(dial, newClient);
    if e.Some? {
      return null, Some("failed to connect to SFTP server: " + e.value);
    }
    if filepathErr.Some? {
      return null, Some("failed to parse filepath expression: " + filepathErr.value);
    }
    return w, None;
  }

  // ---------------------------------------------------------------------------
  // Writing one record
  // ---------------------------------------------------------------------------

  /** The remote filesystem as the writer sees it: file contents by path, and the directories made. */
  datatype FsState = FsState(files: map<string, Payload>, dirs: set<string>)

  /** The error each remote step returns for one record, if it fails. */
  datatype Faults = Faults(stat: Option<string>, mkdir: Option<string>, create: Option<string>, open: Option<string>, write: Option<string>)

  const NoFaults := Faults(None, None, None, None, None)

  /** The filesystem after a step, and the step's error. */
  datatype Outcome = Outcome(fs: FsState, err: Option<string>)

  /**
   * `filepath.Dir` of a path without redundant separators: everything before
   * the last slash, "/" for a file at the root, "." for a bare name.
   */
  function ParentDir(path: string): (d: string)
    ensures '/' !in path ==> d == "."
    ensures '/' in path ==>
      || (d == "/" && path[0] == '/' && '/' !in path[1..])
      || (0 < |d| < |path| && d == path[..|d|] && path[|d|] == '/' && '/' !in path[|d| + 1..])
  {
    var i := LastIndexOf(path, '/');
    if i < 0 then "."
    else if i == 0 then "/"
    else path[..i]
  }

  /** `Stat` fails for a path that is neither a file nor a directory, or with a fault of its own. */
  predicate StatFails(fs: FsState, path: string, faults: Faults)
    ensures path in fs.dirs && faults.stat.None? ==> !StatFails(fs, path, faults)
  {
    (path !in fs.files && path !in fs.dirs) || faults.stat.Some?
  }

  /** The server's answer when a directory is opened for appending (its wording is not modelled). */
  const DirOpenError := "cannot open a directory for writing"

  /** `file.Write` of the payload to an open file: the payload is appended at the end, or nothing changes if it fails. */
  function WriteStep(fs: FsState, path: string, payload: Payload, fault: Option<string>): (o: Outcome)
    requires path in fs.files
    ensures o.err == fault && o.fs.dirs == fs.dirs && path in o.fs.files
    ensures o.err.None? ==> o.fs.files[path] == fs.files[path] + payload
    ensures o.err.Some? ==> o.fs == fs
  {
    if fault.Some? then Outcome(fs, fault)
    else Outcome(fs.(files := fs.files[path := fs.files[path] + payload]), None)
  }

  /**
   * The per-record body of `WriteWithContext`: a path that cannot be stat'ed
   * gets its parent directory and a fresh empty file, one that can is opened
   * for appending; then the payload is written. The first failing step's
   * error is returned and later steps do not run.
   */
  function RecordSpec(fs: FsState, path: string, payload: Payload, faults: Faults): (o: Outcome)
    ensures o.err.None? ==> path in o.fs.files
  {
    if StatFails(fs, path, faults) then
      if faults.mkdir.Some? then Outcome(fs, faults.mkdir)
      else
        var made := fs.(dirs := fs.dirs + {ParentDir(path)});
        if faults.create.Some? then Outcome(made, faults.create)
        else WriteStep(made.(files := made.files[path := []]), path, payload, faults.write)
    else if faults.open.Some? then Outcome(fs, faults.open)
    else if path !in fs.files then Outcome(fs, Some(DirOpenError))
    else WriteStep(fs, path, payload, faults.write)
  }

  /**
   * The error of a record is the answer of one of the mkdir, create, open or
   * write calls, or the refusal to open a directory; a failed stat is never
   * reported.
   */
  lemma RecordErrorOrigin(fs: FsState, path: string, payload: Payload, faults: Faults)
    ensures var o := RecordSpec(fs, path, payload, faults);
      o.err.Some? ==>
        || o.err == faults.mkdir || o.err == faults.create || o.err == faults.open || o.err == faults.write
        || (o.err == Some(DirOpenError) && path in fs.dirs)
  {
  }

  /** A missing file is created in its parent directory and ends up holding exactly the payload. */
  lemma CreatePath(fs: FsState, path: string, payload: Payload)
    requires path !in fs.files && path !in fs.dirs
    ensures var o := RecordSpec(fs, path, payload, NoFaults);
      && o.err == None
      && o.fs.files == fs.files[path := payload]
      && o.fs.dirs == fs.dirs + {ParentDir(path)}
  {
    assert [] + payload == payload;
  }

  /** An existing file is appended to: its contents become the old contents followed by the payload. */
  lemma AppendPath(fs: FsState, path: string, payload: Payload)
    requires path in fs.files
    ensures var o := RecordSpec(fs, path, payload, NoFaults);
      o == Outcome(fs.(files := fs.files[path := fs.files[path] + payload]), None)
  {
  }

  /** A path that names a directory is stat'ed successfully, so it is opened, and opening a directory fails. */
  lemma DirectoryRefused(fs: FsState, path: string, payload: Payload, faults: Faults)
    requires path in fs.dirs && path !in fs.files
    requires faults.stat.None? && faults.open.None?
    ensures RecordSpec(fs, path, payload, faults) == Outcome(fs, Some(DirOpenError))
  {
  }

  /**
   * The first failing step decides the error, and the steps after it leave
   * no trace: a failed mkdir changes nothing, a failed create only adds the
   * directory, a failed open changes nothing, and a failed write leaves the
   * file as created or opened.
   */
  lemma FirstFailureWins(fs: FsState, path: string, payload: Payload, faults: Faults)
    ensures var o := RecordSpec(fs, path, payload, faults);
      && (StatFails(fs, path, faults) && faults.mkdir.Some? ==> o == Outcome(fs, faults.mkdir))
      && (StatFails(fs, path, faults) && faults.mkdir.None? && faults.create.Some? ==>
            o == Outcome(fs.(dirs := fs.dirs + {ParentDir(path)}), faults.create))
      && (StatFails(fs, path, faults) && faults.mkdir.None? && faults.create.None? && faults.write.Some? ==>
            o == Outcome(FsState(fs.files[path := []], fs.dirs + {ParentDir(path)}), faults.write))
      && (!StatFails(fs, path, faults) && faults.open.Some? ==> o == Outcome(fs, faults.open))
      && (!StatFails(fs, path, faults) && faults.open.None? && path in fs.files && faults.write.Some? ==>
            o == Outcome(fs, faults.write))
  {
  }

  /** A record adds at most its path's parent directory, and removes none. */
  lemma RecordDirs(fs: FsState, path: string, payload: Payload, faults: Faults)
    ensures var o := RecordSpec(fs, path, payload, faults);
      fs.dirs <= o.fs.dirs <= fs.dirs + {ParentDir(path)}
  {
  }

  /** A record's write touches only its own file and only adds directories. */
  lemma RecordFrame(fs: FsState, path: string, payload: Payload, faults: Faults, other: string)
    requires other != path
    ensures var o := RecordSpec(fs, path, payload, faults);
      && (other in o.fs.files <==> other in fs.files)
      && (other in fs.files ==> o.fs.files[other] == fs.files[other])
      && fs.dirs <= o.fs.dirs
  {
  }

  /**
   * The remote filesystem reached through the writer's SFTP client. Its
   * methods are the client calls `WriteWithContext` makes; each takes the
   * error the server answers with, if any.
   */
  class RemoteFs {
    var files: map<string, Payload>
    var dirs: set<string>

    function State(): FsState
      reads this
    {
      FsState(files, dirs)
    }

    constructor(fs: FsState)
      ensures State() == fs
    {
      files := fs.files;
      dirs := fs.dirs;
    }

    /** `client.Stat`. */
    method Stat(path: string, fault: Option<string>) returns (err: Option<string>)
      ensures err.Some? <==> (path !in files && path !in dirs) || fault.Some?
    {
      if fault.Some? {
        err := fault;
      } else if path !in files && path !in dirs {
        err := Some("file does not exist");
      } else {
        err := None;
      }
    }

    /** `client.OpenFile` for appending: opening changes nothing, and a directory cannot be opened. */
    method OpenFile(path: string, fault: Option<string>) returns (err: Option<string>)
      ensures fault.Some? ==> err == fault
      ensures fault.None? ==> (err.None? <==> path in files)
      ensures fault.None? && path !in files ==> err == Some(DirOpenError)
    {
      if fault.Some? {
        err := fault;
      } else if path !in files {
        err := Some(DirOpenError);
      } else {
        err := None;
      }
    }

    /** `client.MkdirAll`. */
    method MkdirAll(dir: string, fault: Option<string>) returns (err: Option<string>)
      modifies this
      ensures err == fault
      ensures files == old(files)
      ensures dirs == if fault.Some? then old(dirs) else old(dirs) + {dir}
    {
      err := fault;
      if fault.None? {
        dirs := dirs + {dir};
      }
    }

    /** `client.Create`: an empty file, replacing any file at that path. */
    method Create(path: string, fault: Option<string>) returns (err: Option<string>)
      modifies this
      ensures err == fault
      ensures dirs == old(dirs)
      ensures files == if fault.Some? then old(files) else old(files)[path := []]
    {
      err := fault;
      if fault.None? {
        files := files[path := []];
      }
    }

    /** `file.Write`: append the payload to an open file. */
    method Append(path: string, payload: Payload, fault: Option<string>) returns (err: Option<string>)
      requires path in files
      modifies this
      ensures err == fault
      ensures dirs == old(dirs)
      ensures files == if fault.Some? then old(files) else old(files)[path := old(files)[path] + payload]
    {
      err := fault;
      if fault.None? {
        files := files[path := files[path] + payload];
      }
    }

    /** One record of `WriteWithContext`, step by step; it does what RecordSpec says. */
    method WriteRecord(path: string, payload: Payload, faults: Faults) returns (err: Option<string>)
      modifies this
      ensures Outcome(State(), err) == RecordSpec(old(State()), path, payload, faults)
    {
      var statErr := Stat(path, faults.stat);
      if statErr.Some? {
        err := MkdirAll(ParentDir(path), faults.mkdir);
        if err.Some? {
          return;
        }
        err := Create(path, faults.create);
        if err.Some? {
          return;
        }
      } else {
        err := OpenFile(path, faults.open);
        if err.Some? {
          return;
        }
      }
      err := Append(path, payload, faults.write);
    }
  }

  // ---------------------------------------------------------------------------
  // Writing a batch
  // ---------------------------------------------------------------------------

  /** What the batch iteration reports: the record's own error for a one-record batch, else a batch error. */
  datatype SendError = PlainError(msg: string) | PartialError(batch: BatchError)

  /** The iteration after the first records: the filesystem, the errors by index, and the first error. */
  datatype Run = Run(fs: FsState, failed: map<nat, string>, first: Option<string>) {

    /** The error recorded against record `i`, if any. */
    function EntryOf(i: nat): Option<string>
    {
      if i in failed then Some(failed[i]) else None
    }
  }

  /** Every record among the first `n` is written in index order, whatever the earlier ones returned. */
  function RunParts(fs: FsState, parts: seq<Payload>, paths: nat -> string, faults: nat -> Faults, n: nat): (r: Run)
    requires n <= |parts|
    ensures r.first.None? ==> r.failed == map[]
  {
    if n == 0 then Run(fs, map[], None)
    else
      var r := RunParts(fs, parts, paths, faults, n - 1);
      var o := RecordSpec(r.fs, paths(n - 1), parts[n - 1], faults(n - 1));
      if o.err.None? then r.(fs := o.fs)
      else Run(o.fs, r.failed[n - 1 := o.err.value], if r.first.Some? then r.first else o.err)
  }

  /** The batch iteration `WriteWithContext` delegates to: one record alone, or every record with the failures collected. */
  datatype Sent = Sent(fs: FsState, err: Option<SendError>)

  function SendSpec(fs: FsState, parts: seq<Payload>, paths: nat -> string, faults: nat -> Faults): (s: Sent)
    ensures |parts| == 1 && s.err.Some? ==> s.err.value.PlainError?
    ensures |parts| != 1 && s.err.Some? ==> s.err.value.PartialError? && s.err.value.batch.ValidFor(|parts|)
  {
    if |parts| == 1 then
      var o := RecordSpec(fs, paths(0), parts[0], faults(0));
      Sent(o.fs, if o.err.Some? then Some(PlainError(o.err.value)) else None)
    else
      var r := RunParts(fs, parts, paths, faults, |parts|);
      RunPartsErrors(fs, parts, paths, faults, |parts|);
      Sent(r.fs, if r.first.Some? then Some(PartialError(BatchError(r.first.value, r.failed))) else None)
  }

  /**
   * The record at index `i` is attempted on the filesystem the earlier
   * records left; it is in the failure map exactly when that attempt failed,
   * with that attempt's error.
   */
  lemma RunPartsIndex(fs: FsState, parts: seq<Payload>, paths: nat -> string, faults: nat -> Faults, n: nat, i: nat)
    requires i < n <= |parts|
    ensures var o := RecordSpec(RunParts(fs, parts, paths, faults, i).fs, paths(i), parts[i], faults(i));
      var failed := RunParts(fs, parts, paths, faults, n).failed;
      && (i in failed <==> o.err.Some?)
      && (i in failed ==> failed[i] == o.err.value)
  {
    RunPartsKeeps(fs, parts, paths, faults, n, i);
    RunPartsErrors(fs, parts, paths, faults, i);
    RunPartsLast(fs, parts, paths, faults, i);
  }

  /** The records after index `i` leave its entry in the failure map as record `i` left it. */
  lemma {:induction false} RunPartsKeeps(fs: FsState, parts: seq<Payload>, paths: nat -> string, faults: nat -> Faults, n: nat, i: nat)
    requires i < n <= |parts|
    ensures RunParts(fs, parts, paths, faults, n).EntryOf(i) == RunParts(fs, parts, paths, faults, i + 1).EntryOf(i)
    decreases n
  {
    if i < n - 1 {
      RunPartsKeeps(fs, parts, paths, faults, n - 1, i);
      RunPartsLater(fs, parts, paths, faults, n, i);
      assert RunParts(fs, parts, paths, faults, n - 1).EntryOf(i) == RunParts(fs, parts, paths, faults, i + 1).EntryOf(i);
      assert RunParts(fs, parts, paths, faults, n).EntryOf(i) == RunParts(fs, parts, paths, faults, n - 1).EntryOf(i);
    }
  }

  /** A later record leaves the failure map's entry for an earlier index alone. */
  lemma RunPartsLater(fs: FsState, parts: seq<Payload>, paths: nat -> string, faults: nat -> Faults, n: nat, i: nat)
    requires i < n - 1 && n <= |parts|
    ensures RunParts(fs, parts, paths, faults, n).EntryOf(i) == RunParts(fs, parts, paths, faults, n - 1).EntryOf(i)
  {
  }

  /** Record `i` is in the failure map after it exactly when its own attempt failed, if it was not there before. */
  lemma RunPartsLast(fs: FsState, parts: seq<Payload>, paths: nat -> string, faults: nat -> Faults, i: nat)
    requires i < |parts|
    requires i !in RunParts(fs, parts, paths, faults, i).failed
    ensures var o := RecordSpec(RunParts(fs, parts, paths, faults, i).fs, paths(i), parts[i], faults(i));
      var failed := RunParts(fs, parts, paths, faults, i + 1).failed;
      && (i in failed <==> o.err.Some?)
      && (i in failed ==> failed[i] == o.err.value)
  {
    assert i + 1 - 1 == i;
  }

  /**
   * The failure map names only records of the batch, the first error is
   * present exactly when some record failed, and it is the error of the
   * lowest failed index.
   */
  lemma {:induction false} RunPartsErrors(fs: FsState, parts: seq<Payload>, paths: nat -> string, faults: nat -> Faults, n: nat)
    requires n <= |parts|
    ensures var r := RunParts(fs, parts, paths, faults, n);
      && (forall k :: k in r.failed ==> k < n)
      && (r.first.None? <==> r.failed == map[])
      && (r.first.Some? ==> exists k :: k in r.failed && r.failed[k] == r.first.value && forall j :: j in r.failed ==> k <= j)
    decreases n
  {
    if n > 0 {
      RunPartsErrors(fs, parts, paths, faults, n - 1);
      var r := RunParts(fs, parts, paths, faults, n - 1);
      var o := RecordSpec(r.fs, paths(n - 1), parts[n - 1], faults(n - 1));
      var r' := RunParts(fs, parts, paths, faults, n);
      if o.err.Some? {
        assert n - 1 in r'.failed;
        if r.first.Some? {
          var k :| k in r.failed && r.failed[k] == r.first.value && forall j :: j in r.failed ==> k <= j;
          assert k in r'.failed && r'.failed[k] == r'.first.value;
        } else {
          assert forall j :: j in r'.failed ==> j == n - 1;
        }
      }
    }
  }

  /** A one-record batch returns that record's own error. */
  lemma SendSingleRecord(fs: FsState, part: Payload, paths: nat -> string, faults: nat -> Faults)
    ensures var s := SendSpec(fs, [part], paths, faults);
      var o := RecordSpec(fs, paths(0), part, faults(0));
      && s.fs == o.fs
      && (s.err.None? <==> o.err.None?)
      && (o.err.Some? ==> s.err == Some(PlainError(o.err.value)))
  {
  }

  /**
   * A batch of any other size reports nil exactly when no record failed, and
   * otherwise a batch error naming exactly the failed records, whose base is
   * the error of the first failed record.
   */
  lemma SendBatch(fs: FsState, parts: seq<Payload>, paths: nat -> string, faults: nat -> Faults)
    requires |parts| != 1
    ensures var s := SendSpec(fs, parts, paths, faults);
      var r := RunParts(fs, parts, paths, faults, |parts|);
      && (s.err.None? <==> r.failed == map[])
      && (s.err.Some? ==> s.err.value.PartialError? && s.err.value.batch.failed == r.failed)
      && (s.err.Some? ==> s.err.value.batch.ValidFor(|parts|))
      && (s.err.Some? ==> exists k :: k in r.failed && s.err.value.batch.base == r.failed[k] && forall j :: j in r.failed ==> k <= j)
  {
    RunPartsErrors(fs, parts, paths, faults, |parts|);
  }

  /** The parent directories of the first n record paths. */
  function ParentsOf(paths: nat -> string, n: nat): set<string>
  {
    if n == 0 then {} else ParentsOf(paths, n - 1) + {ParentDir(paths(n - 1))}
  }

  /** A batch keeps every directory and adds at most the parents of its record paths. */
  lemma {:induction false} RunPartsDirs(fs: FsState, parts: seq<Payload>, paths: nat -> string, faults: nat -> Faults, n: nat)
    requires n <= |parts|
    ensures fs.dirs <= RunParts(fs, parts, paths, faults, n).fs.dirs <= fs.dirs + ParentsOf(paths, n)
    decreases n
  {
    if n > 0 {
      RunPartsDirs(fs, parts, paths, faults, n - 1);
      var r := RunParts(fs, parts, paths, faults, n - 1);
      RecordDirs(r.fs, paths(n - 1), parts[n - 1], faults(n - 1));
    }
  }

  /** A batch leaves every file other than its record paths as it was, whatever the faults. */
  lemma {:induction false} RunPartsFrame(fs: FsState, parts: seq<Payload>, paths: nat -> string, faults: nat -> Faults, n: nat, q: string)
    requires n <= |parts|
    requires forall i :: 0 <= i < n ==> q != paths(i)
    ensures Unchanged(fs, RunParts(fs, parts, paths, faults, n).fs, q)
    decreases n
  {
    if n > 0 {
      RunPartsFrame(fs, parts, paths, faults, n - 1, q);
      var r := RunParts(fs, parts, paths, faults, n - 1);
      RecordFrame(r.fs, paths(n - 1), parts[n - 1], faults(n - 1), q);
    }
  }

  /** With no faults and no record path a directory, no record fails. */
  lemma {:induction false} RunPartsNoFailures(fs: FsState, parts: seq<Payload>, paths: nat -> string, faults: nat -> Faults, n: nat)
    requires n <= |parts|
    requires forall i :: 0 <= i < n ==> faults(i) == NoFaults
    requires forall i :: 0 <= i < n ==> paths(i) !in fs.dirs + ParentsOf(paths, n)
    ensures RunParts(fs, parts, paths, faults, n).failed == map[]
    decreases n
  {
    if n > 0 {
      RunPartsNoFailures(fs, parts, paths, faults, n - 1);
      RunPartsDirs(fs, parts, paths, faults, n - 1);
      var r := RunParts(fs, parts, paths, faults, n - 1);
      NoFaultsSucceeds(r.fs, paths(n - 1), parts[n - 1]);
    }
  }

  /** A fault-free record on a path that is not a directory succeeds. */
  lemma NoFaultsSucceeds(fs: FsState, path: string, payload: Payload)
    requires path !in fs.dirs
    ensures RecordSpec(fs, path, payload, NoFaults).err == None
  {
  }

  /**
   * The record at index k, on a path no other record uses and that is never a
   * directory, leaves its payload after what the path held before the batch,
   * and later records do not touch it.
   */
  lemma {:induction false} RunPartsWritten(fs: FsState, parts: seq<Payload>, paths: nat -> string, faults: nat -> Faults, n: nat, k: nat)
    requires k < n <= |parts| && faults(k) == NoFaults
    requires forall i :: 0 <= i < n && i != k ==> paths(i) != paths(k)
    requires paths(k) !in fs.dirs + ParentsOf(paths, k)
    ensures Holds(RunParts(fs, parts, paths, faults, n).fs, paths(k), Prior(fs, paths(k)) + parts[k])
    decreases n
  {
    if n == k + 1 {
      RunPartsFrame(fs, parts, paths, faults, k, paths(k));
      RunPartsDirs(fs, parts, paths, faults, k);
      var r := RunParts(fs, parts, paths, faults, k);
      RecordAlone(fs, r.fs, paths(k), parts[k]);
    } else {
      RunPartsWritten(fs, parts, paths, faults, n - 1, k);
      var r := RunParts(fs, parts, paths, faults, n - 1);
      RecordFrame(r.fs, paths(n - 1), parts[n - 1], faults(n - 1), paths(k));
    }
  }

  /**
   * With distinct paths, no faults and no record path a directory (before
   * the batch or as the parent of another record), every record's payload
   * lands in its own file, appended to what was there (nothing, for a new
   * file), and no other file changes.
   */
  lemma DistinctPathsAllWritten(fs: FsState, parts: seq<Payload>, paths: nat -> string, faults: nat -> Faults, n: nat)
    requires n <= |parts|
    requires forall i :: 0 <= i < n ==> faults(i) == NoFaults
    requires forall i, j :: 0 <= i < j < n ==> paths(i) != paths(j)
    requires forall i :: 0 <= i < n ==> paths(i) !in fs.dirs + ParentsOf(paths, n)
    ensures var r := RunParts(fs, parts, paths, faults, n);
      && r.failed == map[]
      && (forall i :: 0 <= i < n ==> Holds(r.fs, paths(i), Prior(fs, paths(i)) + parts[i]))
      && (forall q :: (forall i :: 0 <= i < n ==> q != paths(i)) ==> Unchanged(fs, r.fs, q))
  {
    RunPartsNoFailures(fs, parts, paths, faults, n);
    forall k | 0 <= k < n
      ensures Holds(RunParts(fs, parts, paths, faults, n).fs, paths(k), Prior(fs, paths(k)) + parts[k])
    {
      ParentsGrow(paths, k, n);
      RunPartsWritten(fs, parts, paths, faults, n, k);
    }
    forall q | forall i :: 0 <= i < n ==> q != paths(i)
      ensures Unchanged(fs, RunParts(fs, parts, paths, faults, n).fs, q)
    {
      RunPartsFrame(fs, parts, paths, faults, n, q);
    }
  }

  /** One fault-free record on a path untouched so far and not a directory: its payload follows what the path held before the batch, and no other file changes. */
  lemma RecordAlone(before: FsState, fs: FsState, path: string, payload: Payload)
    requires Unchanged(before, fs, path) && path !in fs.dirs
    ensures var o := RecordSpec(fs, path, payload, NoFaults);
      && o.err == None
      && Holds(o.fs, path, Prior(before, path) + payload)
  {
    if path in fs.files {
      AppendPath(fs, path, payload);
    } else {
      CreatePath(fs, path, payload);
    }
  }

  /** The parents of fewer paths are among the parents of more. */
  lemma {:induction false} ParentsGrow(paths: nat -> string, k: nat, n: nat)
    requires k <= n
    ensures ParentsOf(paths, k) <= ParentsOf(paths, n)
    decreases n
  {
    if k < n {
      ParentsGrow(paths, k, n - 1);
    }
  }

  /** The contents a path had before the batch: nothing if it did not exist. */
  function Prior(fs: FsState, path: string): Payload
  {
    if path in fs.files then fs.files[path] else []
  }

  predicate Holds(fs: FsState, path: string, contents: Payload)
  {
    path in fs.files && fs.files[path] == contents
  }

  predicate Unchanged(before: FsState, after: FsState, path: string)
  {
    (path in after.files <==> path in before.files) && (path in before.files ==> after.files[path] == before.files[path])
  }

  /** `WriteWithContext`: write the records one after another, as SendSpec says. */
  method WriteWithContext(fs: RemoteFs, parts: seq<Payload>, paths: nat -> string, faults: nat -> Faults) returns (err: Option<SendError>)
    modifies fs
    ensures Sent(fs.State(), err) == SendSpec(old(fs.State()), parts, paths, faults)
  {
    if |parts| == 1 {
      var e := fs.WriteRecord(paths(0), parts[0], faults(0));
      err := if e.Some? then Some(PlainError(e.value)) else None;
      return;
    }
    var failed: map<nat, string> := map[];
    var first: Option<string> := None;
    for i := 0 to |parts|
      invariant Run(fs.State(), failed, first) == RunParts(old(fs.State()), parts, paths, faults, i)
    {
      var e := fs.WriteRecord(paths(i), parts[i], faults(i));
      if e.Some? {
        failed := failed[i := e.value];
        if first.None? {
          first := e;
        }
      }
    }
    err := if first.Some? then Some(PartialError(BatchError(first.value, failed))) else None;
  }

  // ---------------------------------------------------------------------------
  // Host key callbacks
  // ---------------------------------------------------------------------------

  /** An SSH certificate and a public key, opaque to the writer. */
  datatype Certificate = Certificate(serial: nat)
  datatype PublicKey = PublicKey(blob: seq<byte>)

  /** `hostAuthCallback`: every key is accepted as a host authority for every address. */
  function IsHostAuthority(key: PublicKey, addr: string): (ok: bool)
    ensures ok
  {
    true
  }

  /** The `SFTPServer` record the callbacks fill in. */
  class SftpServer {
    var host: string
    var port: int
    var isSsh: bool
    var cert: Option<Certificate>
    var hostname: string
    var publicKey: Option<PublicKey>

    constructor(host: string, port: int)
      ensures this.host == host && this.port == port
      ensures !isSsh && cert == None && hostname == "" && publicKey == None
    {
      this.host := host;
      this.port := port;
      isSsh := false;
      cert := None;
      hostname := "";
      publicKey := None;
    }

    /** `certCallback`: record the certificate, mark the server as speaking SSH, and report it not revoked. */
    method IsRevoked(c: Certificate) returns (revoked: bool)
      modifies this
      ensures !revoked
      ensures cert == Some(c) && isSsh
      ensures host == old(host) && port == old(port) && hostname == old(hostname) && publicKey == old(publicKey)
    {
      cert := Some(c);
      isSsh := true;
      revoked := false;
    }

    /** `hostCallback`: record the host name and key, and accept. */
    method HostKeyFallback(name: string, key: PublicKey) returns (err: Option<string>)
      modifies this
      ensures err == None
      ensures hostname == name && publicKey == Some(key)
      ensures host == old(host) && port == old(port) && isSsh == old(isSsh) && cert == old(cert)
    {
      hostname := name;
      publicKey := Some(key);
      err := None;
    }
  }
}
