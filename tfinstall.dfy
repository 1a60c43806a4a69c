/**
 * Release acquisition (tfinstall/download.go): resolving the install directory,
 * then fetching the checksum manifest and its detached signature into a scratch
 * directory, checking the signature, and only then fetching the release archive
 * into the install directory, with the scratch directory removed on every exit.
 *
 * `DownloadWithVerification` is proved against `Trace`, the sequence of events a
 * run records given the step at which it stopped; the lemmas after it state the
 * ordering and cleanup guarantees of every such trace.
 */
module TfInstall {
  import opened Wrappers
  import opened Urls
  import opened System

  const InstallDirPrefix := "tfexec"
  const ScratchPrefix := "tfinstall"
  const BinaryName := "terraform"

  /** The release being installed: distribution root, version and platform. */
  datatype Target = Target(base: string, version: string, osName: string, archName: string)

  datatype Error =
    | TempDirFailed                       // ioutil.TempDir failed
    | InstallDirInaccessible(dir: string) // os.Stat of the caller's directory failed
    | ChecksumsFetchFailed                // the manifest could not be fetched
    | SignatureFetchFailed                // the signature could not be fetched
    | SignatureInvalid                    // verifySumsSignature returned an error (key ring, file or signature)
    | ArchiveFetchFailed                  // the archive could not be fetched or checked

  /** The steps of one run, in the order the run takes them. */
  datatype Step = Resolve | Scratch | FetchSums | FetchSig | Verify | FetchArchive

  function Rank(s: Step): nat
  {
    match s
    case Resolve => 0
    case Scratch => 1
    case FetchSums => 2
    case FetchSig => 3
    case Verify => 4
    case FetchArchive => 5
  }

  /** Step `s` succeeded in a run that failed at `failedAt` (or at no step). */
  predicate Passed(s: Step, failedAt: Option<Step>)
  {
    failedAt.None? || Rank(s) < Rank(failedAt.value)
  }

  /** The error a run returns when it fails at step `s`. */
  function ErrorAt(s: Step, installDir: string): Error
  {
    match s
    case Resolve => if installDir == "" then TempDirFailed else InstallDirInaccessible(installDir)
    case Scratch => TempDirFailed
    case FetchSums => ChecksumsFetchFailed
    case FetchSig => SignatureFetchFailed
    case Verify => SignatureInvalid
    case FetchArchive => ArchiveFetchFailed
  }

  /**
   * `ensureInstallDir`: no directory given means a fresh temporary one; a given
   * directory is returned unchanged if it exists and is an error otherwise, and
   * is never created.
   */
  method EnsureInstallDir(host: Host, installDir: string) returns (dir: string, err: Option<Error>)
    modifies host`paths, host`log
    ensures installDir == "" && err.None? ==>
              && Join(host.tempRoot, InstallDirPrefix) <= dir && IsFresh(dir, old(host.paths))
              && host.paths == old(host.paths) + {dir} && host.log == old(host.log) + [Created(dir)]
    ensures installDir == "" && err.Some? ==>
              err == Some(TempDirFailed) && dir == ""
              && host.paths == old(host.paths) && host.log == old(host.log)
    ensures installDir != "" ==> host.paths == old(host.paths) && host.log == old(host.log)
    ensures installDir != "" && installDir in old(host.paths) ==> dir == installDir && err.None?
    ensures installDir != "" && installDir !in old(host.paths) ==>
              dir == "" && err == Some(InstallDirInaccessible(installDir))
  {
    if installDir == "" {
      var failed;
      dir, failed := host.TempDir(InstallDirPrefix);
      err := if failed then Some(TempDirFailed) else None;
      return;
    }
    var ok := host.Stat(installDir);
    if !ok {
      return "", Some(InstallDirInaccessible(installDir));
    }
    return installDir, None;
  }

  /** The manifest fetch, signature fetch, check and archive fetch a run attempts. */
  ghost function Steps(t: Target, tfDir: string, scratch: string, failedAt: Option<Step>): seq<Event>
  {
    [Fetched(SumsUrl(t.base, t.version), scratch, Any, Passed(FetchSums, failedAt))]
    + (if Passed(FetchSums, failedAt)
       then [Fetched(SumsSigUrl(t.base, t.version), scratch, Any, Passed(FetchSig, failedAt))]
       else [])
    + (if Passed(FetchSig, failedAt)
       then [Checked(Join(scratch, SumsFilename(t.version)), Join(scratch, SumsSigFilename(t.version)),
                     Passed(Verify, failedAt))]
       else [])
    + (if Passed(Verify, failedAt)
       then [Fetched(TfUrl(t.base, t.version, t.osName, t.archName), tfDir, Dir,
                     Passed(FetchArchive, failedAt))]
       else [])
  }

  /** What a run records from the creation of its scratch directory on, if it got one. */
  ghost function Scratched(t: Target, tfDir: string, scratch: string, failedAt: Option<Step>): seq<Event>
  {
    if Passed(Scratch, failedAt)
    then [Created(scratch)] + Steps(t, tfDir, scratch, failedAt) + [Removed(scratch)]
    else []
  }

  /** Everything a run records, given the step it failed at, if any. */
  ghost function Trace(t: Target, installDir: string, tfDir: string, scratch: string,
                       failedAt: Option<Step>): seq<Event>
  {
    var resolved := if installDir == "" && Passed(Resolve, failedAt) then [Created(tfDir)] else [];
    if !Passed(Scratch, failedAt) then resolved
    else resolved + [Created(scratch)] + Steps(t, tfDir, scratch, failedAt) + [Removed(scratch)]
  }

  /**
   * The part of `downloadWithVerification` that runs while the scratch
   * directory's deferred removal is pending: fetch manifest and signature,
   * check the signature, fetch the archive.
   */
  method FetchVerified(host: Host, client: Client, t: Target, tfDir: string, scratch: string)
    returns (path: string, err: Option<Error>, ghost failedAt: Option<Step>)
    requires client.mode == Any
    modifies host`paths, host`log, client
    ensures Passed(Scratch, failedAt)
    ensures host.log == old(host.log) + Steps(t, tfDir, scratch, failedAt)
    ensures err == if failedAt.None? then None else Some(ErrorAt(failedAt.value, ""))
    ensures path == if failedAt.None? then Join(tfDir, BinaryName) else ""
    ensures old(host.paths) <= host.paths
    ensures forall p :: p in host.paths - old(host.paths) ==> Within(p, scratch) || Within(p, tfDir)
  {
    var sumsFilename := SumsFilename(t.version);
    var sumsSigFilename := SumsSigFilename(t.version);
    var sumsUrl := SumsUrl(t.base, t.version);
    var sumsSigUrl := SumsSigUrl(t.base, t.version);

    client.src := sumsUrl;
    client.dst := scratch;
    var ok := client.Get(host);
    if !ok {
      path, err, failedAt := "", Some(ChecksumsFetchFailed), Some(FetchSums);
      return;
    }
    client.src := sumsSigUrl;
    ok := client.Get(host);
    if !ok {
      path, err, failedAt := "", Some(SignatureFetchFailed), Some(FetchSig);
      return;
    }

    var sumsPath := Join(scratch, sumsFilename);
    var sumsSigPath := Join(scratch, sumsSigFilename);
    ok := host.VerifySumsSignature(sumsPath, sumsSigPath);
    if !ok {
      path, err, failedAt := "", Some(SignatureInvalid), Some(Verify);
      return;
    }

    var url := TfUrl(t.base, t.version, t.osName, t.archName);
    client.src := url;
    client.dst := tfDir;
    client.mode := Dir;
    ok := client.Get(host);
    if !ok {
      path, err, failedAt := "", Some(ArchiveFetchFailed), Some(FetchArchive);
      return;
    }
    path, err, failedAt := Join(tfDir, BinaryName), None, None;
  }

  /**
   * The part of `downloadWithVerification` after the install directory is
   * resolved: set up the getter client, create the scratch directory, fetch and
   * verify, and run the deferred removal of the scratch directory.
   */
  method DownloadInto(host: Host, t: Target, tfDir: string)
    returns (path: string, err: Option<Error>, ghost scratch: string, ghost failedAt: Option<Step>)
    requires tfDir in host.paths
    modifies host`paths, host`log
    ensures Passed(Resolve, failedAt)
    ensures host.log == old(host.log) + Scratched(t, tfDir, scratch, failedAt)
    ensures err == if failedAt.None? then None else Some(ErrorAt(failedAt.value, ""))
    ensures path == if failedAt.None? then Join(tfDir, BinaryName) else ""
    ensures Passed(Scratch, failedAt) ==>
              && Join(host.tempRoot, ScratchPrefix) <= scratch
              && IsFresh(scratch, old(host.paths)) && IsFresh(scratch, host.paths)
    ensures !Passed(Scratch, failedAt) ==> host.paths == old(host.paths)
    ensures tfDir in host.paths && old(host.paths) <= host.paths
    ensures AllWithin(host.paths - old(host.paths), tfDir)
  {
    var client := new Client();
    client.mode := Any;

    var sumsTmpDir, failed := host.TempDir(ScratchPrefix);
    scratch := sumsTmpDir;
    if failed {
      path, err, failedAt := "", Some(TempDirFailed), Some(Scratch);
      return;
    }
    ghost var created := host.paths;

    // the deferred os.RemoveAll(sumsTmpDir) runs after the rest of the body
    path, err, failedAt := FetchVerified(host, client, t, tfDir, sumsTmpDir);
    ghost var fetched := host.paths;
    host.RemoveAll(sumsTmpDir);

    ScratchRemovalKeepsInstallDir(old(host.paths), fetched, tfDir, scratch);
  }

  /**
   * After the deferred removal of a fresh scratch directory, the install
   * directory is still there, nothing that existed before is gone, and all that
   * is new lies in the install directory.
   */
  lemma ScratchRemovalKeepsInstallDir(before: set<string>, fetched: set<string>,
                                      tfDir: string, scratch: string)
    requires tfDir in before && IsFresh(scratch, before) && before + {scratch} <= fetched
    requires forall p :: p in fetched - (before + {scratch}) ==> Within(p, scratch) || Within(p, tfDir)
    ensures var after := set r | r in fetched && !Within(r, scratch);
            tfDir in after && before <= after && AllWithin(after - before, tfDir)
  {
    var after := set r | r in fetched && !Within(r, scratch);
    assert !Within(tfDir, scratch);
    forall p | p in after - before ensures Within(p, tfDir) {
      assert p != scratch by { assert Within(scratch, scratch); }
    }
  }

  /**
   * `downloadWithVerification`: the run records exactly `Trace` for the step it
   * stopped at; it returns `<dir>/terraform` on success and `""` with the step's
   * error otherwise; it removes nothing that existed before it, adds nothing
   * outside the install directory, and leaves nothing of the scratch directory.
   * `tfDir` is the install directory the function resolved; the source keeps
   * it local, and a failed run without a caller directory leaves it behind.
   */
  method DownloadWithVerification(host: Host, t: Target, installDir: string)
    returns (path: string, err: Option<Error>,
             tfDir: string, ghost scratch: string, ghost failedAt: Option<Step>)
    modifies host`paths, host`log
    ensures host.log == old(host.log) + Trace(t, installDir, tfDir, scratch, failedAt)
    ensures err == if failedAt.None? then None else Some(ErrorAt(failedAt.value, installDir))
    ensures path == if failedAt.None? then Join(tfDir, BinaryName) else ""
    ensures installDir != "" ==> (failedAt == Some(Resolve) <==> installDir !in old(host.paths))
    ensures Passed(Resolve, failedAt) ==> tfDir in host.paths
    ensures Passed(Resolve, failedAt) && installDir != "" ==> tfDir == installDir
    ensures Passed(Resolve, failedAt) && installDir == "" ==>
              Join(host.tempRoot, InstallDirPrefix) <= tfDir && IsFresh(tfDir, old(host.paths))
    ensures Passed(Scratch, failedAt) ==>
              && Join(host.tempRoot, ScratchPrefix) <= scratch
              && IsFresh(scratch, old(host.paths) + {tfDir})
              && IsFresh(scratch, host.paths)
    ensures !Passed(Resolve, failedAt) ==> host.paths == old(host.paths) && tfDir == ""
    ensures old(host.paths) <= host.paths
    ensures AllWithin(host.paths - old(host.paths), tfDir)
    ensures installDir == "" && Passed(Resolve, failedAt) && failedAt.Some? ==>
              path == "" && tfDir in host.paths && tfDir !in old(host.paths)
  {
    tfDir, scratch := "", "";
    var dir, dirErr := EnsureInstallDir(host, installDir);
    tfDir := dir;
    if dirErr.Some? {
      path, err, failedAt := "", dirErr, Some(Resolve);
      return;
    }
    assert installDir == "" ==> tfDir !in old(host.paths) by {
      if installDir == "" {
        assert Within(tfDir, tfDir);
      }
    }
    ghost var resolvedLog := host.log;
    path, err, scratch, failedAt := DownloadInto(host, t, dir);
    assert resolvedLog == old(host.log) + Resolved(installDir, tfDir, failedAt);
    TraceSplit(t, installDir, tfDir, scratch, failedAt);
    ConcatAssoc(old(host.log), Resolved(installDir, tfDir, failedAt), Scratched(t, tfDir, scratch, failedAt));
  }

  /** Concatenation of event sequences regroups freely. */
  lemma ConcatAssoc(a: seq<Event>, b: seq<Event>, c: seq<Event>)
    ensures a + (b + c) == (a + b) + c
  {
  }

  /** A run's record is its resolution followed by its scratch-directory part. */
  lemma TraceSplit(t: Target, installDir: string, tfDir: string, scratch: string, failedAt: Option<Step>)
    ensures Trace(t, installDir, tfDir, scratch, failedAt)
            == Resolved(installDir, tfDir, failedAt) + Scratched(t, tfDir, scratch, failedAt)
  {
  }

  /** A failed fetch or a rejected signature. */
  predicate FailedEvent(e: Event)
  {
    (e.Fetched? || e.Checked?) && !e.ok
  }

  /** A fetch or a signature check. */
  predicate IsTransfer(e: Event)
  {
    e.Fetched? || e.Checked?
  }

  /** The events a run records before its scratch directory exists. */
  ghost function Resolved(installDir: string, tfDir: string, failedAt: Option<Step>): seq<Event>
  {
    if installDir == "" && Passed(Resolve, failedAt) then [Created(tfDir)] else []
  }

  /**
   * The archive is fetched only after the manifest and then its signature were
   * fetched into the scratch directory and the signature verified the manifest;
   * the archive URL's checksum reference is the very manifest URL fetched first.
   */
  lemma ArchiveFetchFollowsVerification(
    t: Target, installDir: string, tfDir: string, scratch: string, failedAt: Option<Step>,
    tr: seq<Event>, i: nat)
    requires tr == Trace(t, installDir, tfDir, scratch, failedAt)
    requires i < |tr| && tr[i].Fetched? && tr[i].mode == Dir
    ensures Passed(Verify, failedAt)
    ensures tr[i] == Fetched(TfUrl(t.base, t.version, t.osName, t.archName), tfDir, Dir, failedAt.None?)
    ensures exists a, b, c :: 0 <= a < b < c < i
              && tr[a] == Fetched(SumsUrl(t.base, t.version), scratch, Any, true)
              && tr[b] == Fetched(SumsSigUrl(t.base, t.version), scratch, Any, true)
              && tr[c] == Checked(Join(scratch, SumsFilename(t.version)),
                                  Join(scratch, SumsSigFilename(t.version)), true)
              && tr[i].src == ReleaseUrl(t.base, t.version, ArchiveFilename(t.version, t.osName, t.archName))
                              + "?" + ChecksumKey + tr[a].src
  {
    var k := |Resolved(installDir, tfDir, failedAt)|;
    assert Passed(Scratch, failedAt);
    var steps := Steps(t, tfDir, scratch, failedAt);
    assert tr == Resolved(installDir, tfDir, failedAt) + [Created(scratch)] + steps + [Removed(scratch)];
    assert i != k + 1 + |steps|;
    assert k < i;
    assert Passed(Verify, failedAt);
    assert i == k + 4;
    var a, b, c := k + 1, k + 2, k + 3;
    assert tr[a] == steps[0] && tr[b] == steps[1] && tr[c] == steps[2];
  }

  /**
   * Nothing follows a failed fetch or a rejected signature except the removal
   * of the scratch directory: a failure aborts the run.
   */
  lemma FailureEndsRun(
    t: Target, installDir: string, tfDir: string, scratch: string, failedAt: Option<Step>,
    tr: seq<Event>, i: nat, j: nat)
    requires tr == Trace(t, installDir, tfDir, scratch, failedAt)
    requires i < j < |tr| && FailedEvent(tr[i])
    ensures j == |tr| - 1 && tr[j] == Removed(scratch)
  {
    var res := Resolved(installDir, tfDir, failedAt);
    var k := |res|;
    assert Passed(Scratch, failedAt);
    var steps := Steps(t, tfDir, scratch, failedAt);
    assert tr == res + [Created(scratch)] + steps + [Removed(scratch)];
    assert k < i < k + 1 + |steps|;
    assert tr[i] == steps[i - k - 1];
    assert i - k - 1 == |steps| - 1;
  }

  /**
   * The scratch directory, once created, is removed as the run's last act, and
   * every fetch and signature check happens while it exists; nothing else is
   * ever removed; a run that fails before creating it only ever created the
   * install directory, and a run that fails to resolve the install directory
   * records nothing at all.
   */
  lemma ScratchRemovedOnEveryExit(
    t: Target, installDir: string, tfDir: string, scratch: string, failedAt: Option<Step>,
    tr: seq<Event>)
    requires tr == Trace(t, installDir, tfDir, scratch, failedAt)
    ensures forall e :: e in tr && e.Removed? ==> e == Removed(scratch)
    ensures Passed(Scratch, failedAt) ==>
              exists c :: 0 <= c < |tr| - 1 && tr[c] == Created(scratch)
                && tr[|tr| - 1] == Removed(scratch)
                && forall k :: 0 <= k < |tr| && IsTransfer(tr[k]) ==> c < k < |tr| - 1
    ensures !Passed(Scratch, failedAt) ==> forall e :: e in tr ==> e == Created(tfDir)
    ensures failedAt == Some(Resolve) ==> tr == []
  {
    var res := Resolved(installDir, tfDir, failedAt);
    if Passed(Scratch, failedAt) {
      var steps := Steps(t, tfDir, scratch, failedAt);
      assert tr == res + [Created(scratch)] + steps + [Removed(scratch)];
      var c := |res|;
      assert tr[c] == Created(scratch);
      forall k | 0 <= k < |tr| && IsTransfer(tr[k]) ensures c < k < |tr| - 1 {
        assert k != |tr| - 1;
      }
    }
  }

  /** A run succeeds exactly when it fetched the archive successfully. */
  lemma SuccessIffArchiveFetched(
    t: Target, installDir: string, tfDir: string, scratch: string, failedAt: Option<Step>,
    tr: seq<Event>)
    requires tr == Trace(t, installDir, tfDir, scratch, failedAt)
    ensures failedAt.None? <==> Fetched(TfUrl(t.base, t.version, t.osName, t.archName), tfDir, Dir, true) in tr
  {
    var archive := Fetched(TfUrl(t.base, t.version, t.osName, t.archName), tfDir, Dir, true);
    if archive in tr {
      var i :| 0 <= i < |tr| && tr[i] == archive;
      ArchiveFetchFollowsVerification(t, installDir, tfDir, scratch, failedAt, tr, i);
    }
    if failedAt.None? {
      var steps := Steps(t, tfDir, scratch, failedAt);
      assert steps[3] == archive;
      assert tr == Resolved(installDir, tfDir, failedAt) + [Created(scratch)] + steps + [Removed(scratch)];
    }
  }

  /**
   * Manifest and signature are fetched into the scratch directory with mode
   * Any, the archive into the install directory with mode Dir; the signature
   * check reads the two files the first two fetches put in the scratch
   * directory.
   */
  lemma FetchDestinations(
    t: Target, installDir: string, tfDir: string, scratch: string, failedAt: Option<Step>,
    tr: seq<Event>)
    requires tr == Trace(t, installDir, tfDir, scratch, failedAt)
    ensures forall e :: e in tr && e.Fetched? ==>
              || (e.dst == scratch && e.mode == Any
                  && (e.src == SumsUrl(t.base, t.version) || e.src == SumsSigUrl(t.base, t.version)))
              || (e.dst == tfDir && e.mode == Dir && e.src == TfUrl(t.base, t.version, t.osName, t.archName))
    ensures forall e :: e in tr && e.Checked? ==>
              e.sumsPath == Join(scratch, SumsFilename(t.version))
              && e.sigPath == Join(scratch, SumsSigFilename(t.version))
  {
    if Passed(Scratch, failedAt) {
      var steps := Steps(t, tfDir, scratch, failedAt);
      assert tr == Resolved(installDir, tfDir, failedAt) + [Created(scratch)] + steps + [Removed(scratch)];
    }
  }

  /**
   * `downloadWithVerification` with the temporary install directory it made
   * removed again when the run fails, since the caller, given `""`, cannot
   * learn its name: a failed run without a caller directory then leaves the
   * filesystem as it found it.
   */
  method DownloadCleaningUp(host: Host, t: Target, installDir: string)
    returns (path: string, err: Option<Error>,
             tfDir: string, ghost scratch: string, ghost failedAt: Option<Step>)
    modifies host`paths, host`log
    ensures host.log == old(host.log) + Trace(t, installDir, tfDir, scratch, failedAt)
              + (if installDir == "" && Passed(Resolve, failedAt) && failedAt.Some? then [Removed(tfDir)] else [])
    ensures err == if failedAt.None? then None else Some(ErrorAt(failedAt.value, installDir))
    ensures path == if failedAt.None? then Join(tfDir, BinaryName) else ""
    ensures installDir != "" ==> (failedAt == Some(Resolve) <==> installDir !in old(host.paths))
    ensures Passed(Resolve, failedAt) && installDir != "" ==> tfDir == installDir && tfDir in host.paths
    ensures Passed(Resolve, failedAt) && installDir == "" ==>
              Join(host.tempRoot, InstallDirPrefix) <= tfDir && IsFresh(tfDir, old(host.paths))
    ensures failedAt.None? ==> tfDir in host.paths
    ensures Passed(Scratch, failedAt) ==>
              && Join(host.tempRoot, ScratchPrefix) <= scratch
              && IsFresh(scratch, old(host.paths) + {tfDir})
              && IsFresh(scratch, host.paths)
    ensures !Passed(Resolve, failedAt) ==> host.paths == old(host.paths) && tfDir == ""
    ensures installDir == "" && failedAt.Some? ==> host.paths == old(host.paths)
    ensures old(host.paths) <= host.paths
    ensures AllWithin(host.paths - old(host.paths), tfDir)
  {
    path, err, tfDir, scratch, failedAt := DownloadWithVerification(host, t, installDir);
    if err.Some? && installDir == "" && tfDir != "" {
      ghost var before := host.paths;
      host.RemoveAll(tfDir);
      assert IsFresh(tfDir, old(host.paths)) && old(host.paths) <= before;
      assert host.paths == old(host.paths) by {
        forall p | p in host.paths ensures p in old(host.paths) {
          assert p in before && !Within(p, tfDir);
        }
      }
    }
  }
}
