# terraform-exec release installer — a Dafny model

This project models the release-acquisition core of `tfinstall`
(`tfinstall/download.go`): how the installer names and locates the checksum
manifest (`terraform_<v>_SHA256SUMS`), its detached signature (`.sig`) and the
release archive, how it decides the install directory (`ensureInstallDir`), and
the strictly ordered, short-circuiting sequence of `downloadWithVerification`:
resolve the install directory, create a scratch directory whose removal is
deferred, fetch the manifest, fetch the signature, verify the signature, fetch
the archive (checksum-checked against the manifest served at the manifest URL)
into the install directory,
and return `<dir>/terraform`.

Files:

- `urls.dfy` (module `Urls`): the file names and URLs, as pure functions, with
  their inverse (parsing a manifest name back), injectivity, and the fact that
  the archive URL's `?checksum=file:` reference is exactly the manifest URL
  that is fetched and signature-checked.
- `system.dfy` (module `System`): the world the installer acts on. `Host` holds
  an abstract filesystem (the set of existing paths) and a ghost event log;
  `Client` is the getter client whose `src`, `dst` and `mode` fields the
  orchestrator sets before each `Get`. Fetches, the signature check, temporary
  directory creation failures and the random part of temporary names are
  nondeterministic: every contract holds whatever they turn out to be.
- `tfinstall.dfy` (module `TfInstall`): `EnsureInstallDir`,
  `DownloadWithVerification`, the part of it after the install directory is
  resolved (`DownloadInto`) and, within that, the part that runs while the
  scratch directory's removal is pending (`FetchVerified`). The orchestrator is proved
  against `Trace`, the event sequence of a run given the step at which it
  stopped, and the lemmas state the security ordering of every such trace.
- `wrappers.dfy` (module `Wrappers`): `Option`.

The distribution root `baseUrl` is defined outside the modelled file; it is the
`base` field of `TfInstall.Target` (and a parameter of every URL function). The
operating system and architecture, which the source reads from the Go runtime,
are the `osName` and `archName` fields of the same record. `os.TempDir()` is the
host's `tempRoot`.

Go's `defer os.RemoveAll(sumsTmpDir)` is modelled by splitting the function: the
statements after the `defer` form `FetchVerified`, and `DownloadInto` calls
`RemoveAll` after it returns, on every path,
which is when Go runs deferred calls. The removal is therefore the last event of
every run that created the scratch directory, after the archive fetch.

## Model

| member | source | states |
|---|---|---|
| `Urls.ReleaseUrl` | tfinstall/download.go:66-69 | a release file's URL begins with `base/v/` and ends with the file name; its length is theirs plus the two separators |
| `Urls.SumsFilename` | tfinstall/download.go:63 | the manifest name begins with `terraform_<v>` and ends with `_SHA256SUMS`, with nothing else in between |
| `Urls.SumsSigFilename` | tfinstall/download.go:64 | the signature name begins with the manifest name and ends with `.sig`, with nothing else in between |
| `Urls.SumsUrl` | tfinstall/download.go:66-67 | the manifest URL begins with `base/v/` and ends with the manifest name, with nothing else in between |
| `Urls.ArchiveFilename` | tfinstall/download.go:130 | the archive name begins with `terraform_<v>_<os>_<arch>` and ends with `.zip`, with nothing else in between |
| `System.Join` | tfinstall/download.go:84-85 | a joined path lies strictly beneath the directory, and what follows the directory and its separator is exactly the name |
| `Urls.SumsSigUrl` | tfinstall/download.go:63-69 | the signature URL is the manifest URL followed by `.sig` |
| `Urls.TfUrl` | tfinstall/download.go:125-133 | the archive URL is `base/v/terraform_v_os_arch.zip`, then `?checksum=file:`, then exactly the manifest URL that lines 66-67 build |
| `Urls.ParseSumsFilename` | tfinstall/download.go:63 | a name that parses to a version is the manifest name of that version |
| `Urls.SumsFilenameRoundTrip` | tfinstall/download.go:63 | every manifest name parses back to the version it was built from |
| `Urls.SumsUrlInjective` | tfinstall/download.go:66-67 | two versions never share a manifest URL under one distribution root |
| `Urls.TfUrlChecksumReference` | tfinstall/download.go:125-133 | when no part contains `?`, the archive URL's path is the archive's release URL and its query is `checksum=file:` plus the manifest URL |
| `Urls.ExampleUrls` | tfinstall/download.go:63-69 | manifest and signature URLs of release 1.0.7 |
| `System.Host.TempDir` | tfinstall/download.go:57-60 | fails changing nothing and returning `""`, or creates one new directory `tempRoot/prefix…` beneath which nothing existed |
| `System.Host.Stat` | tfinstall/download.go:21 | environment assumption, not proved source behaviour: `os.Stat` succeeds exactly when the path exists |
| `System.Host.RemoveAll` | tfinstall/download.go:61 | environment assumption, not proved source behaviour: `os.RemoveAll` removes the directory and everything beneath it, nothing else |
| `System.Host.VerifySumsSignature` | tfinstall/download.go:107-123 | records the check of the two scratch files with its outcome |
| `System.Client.Get` | tfinstall/download.go:71-73 | records the fetch with the client's current source, destination and mode; writes only beneath the destination and removes nothing |
| `TfInstall.EnsureInstallDir` | tfinstall/download.go:16-26 | `""` gives a fresh temporary directory (or the temp-dir error, nothing created); an existing path is returned unchanged; a missing path is an error; a given path is never created and nothing changes |
| `TfInstall.FetchVerified` | tfinstall/download.go:63-102 | records exactly the manifest fetch, signature fetch, check and archive fetch up to the first failure; the failing step's error and `""`, or `<dir>/terraform` |
| `TfInstall.DownloadInto` | tfinstall/download.go:38-103 | with the install directory resolved: records the scratch creation, the steps of `FetchVerified` and the scratch removal, or nothing if the scratch directory could not be made; the scratch directory is fresh and gone afterwards; the install directory survives; nothing pre-existing is removed; everything new lies in the install directory |
| `TfInstall.ScratchRemovalKeepsInstallDir` | tfinstall/download.go:61 | removing a fresh scratch directory after the fetches keeps the install directory and everything that existed before, and leaves new paths only inside the install directory |
| `TfInstall.DownloadWithVerification` | tfinstall/download.go:28-103 | records exactly `Trace`; error and `""` on failure, `<dir>/terraform` on success; resolution failure changes nothing; the install directory survives; nothing of the scratch directory remains; nothing pre-existing is removed; everything new lies in the install directory; a failure after a temporary install directory was made returns `""` and leaves that directory behind |
| `TfInstall.DownloadCleaningUp` | tfinstall/download.go:28-103 | corrected run: records `Trace` followed, on a failure after a temporary install directory was made, by that directory's removal; the same error, path, resolution and scratch-directory guarantees as `DownloadWithVerification`; a resolution failure changes nothing; and a failed run without a caller directory leaves the filesystem exactly as it found it |
| `TfInstall.ArchiveFetchFollowsVerification` | tfinstall/download.go:71-97 | an archive fetch is preceded, in order, by a successful manifest fetch, a successful signature fetch and a successful signature check, and its checksum reference is the fetched manifest URL |
| `TfInstall.FailureEndsRun` | tfinstall/download.go:73-99 | after a failed fetch or a rejected signature, the only event is the scratch removal |
| `TfInstall.ScratchRemovedOnEveryExit` | tfinstall/download.go:57-61 | once the scratch directory is created, its removal is the last event and every fetch and check lies between creation and removal; nothing else is ever removed; a resolution failure records nothing |
| `TfInstall.SuccessIffArchiveFetched` | tfinstall/download.go:93-102 | a run succeeds exactly when the archive fetch succeeded |
| `TfInstall.FetchDestinations` | tfinstall/download.go:71-96 | manifest and signature go to the scratch directory in mode Any, the archive to the install directory in mode Dir; the check reads the two scratch files |

## Left out

- OpenPGP key-ring parsing and detached-signature checking (tfinstall/download.go:107-123) are a foreign library: `System.Host.VerifySumsSignature` answers either way. The embedded `hashicorpPublicKey` is not part of this model.
- go-getter's HTTPS transport, netrc handling, zip extraction and its SHA-256 enforcement of the `?checksum=file:` query are a library outside the model: `System.Client.Get` may succeed or fail and may write anything beneath its destination. That a successful archive fetch matched the manifest's checksum is therefore not a claim of the model; the model proves only that the query names the same URL as the manifest that was fetched and signature-checked.
- `System.Client.Get`: which files a fetch writes is not tracked, so the model does not show that the manifest lands at `<scratch>/terraform_<v>_SHA256SUMS` or that the archive contains `terraform`; the returned path is the join the source computes.
- `System.Host.RemoveAll`: a failure of `os.RemoveAll`, whose error the deferred call ignores, is not modelled; removal always succeeds.
- `Urls.TfUrlChecksumReference`: proves that two URLs are equal, not that the bytes are the same. The archive fetch (tfinstall/download.go:93-97) is given only the URL string and the install directory, never the local manifest copy whose signature was checked (`sumsPath`, lines 84 and 87). So the fetcher downloads the manifest a second time from that URL, and the signature check at line 87 does not cover the bytes used for the checksum at line 97: the check and the use are two separate downloads.
- `System.Host.Stat`: "accessible" is modelled as "exists"; permission errors and the difference between files and directories are not modelled.
- `System.Host.TempDir`: `ioutil.TempDir`'s retries over random names are one nondeterministic choice of an unused name (or a failure).
- `Urls.TfUrlChecksumReference`: stated only when the base URL, version, OS and architecture contain no `?`; URL parsing beyond splitting at the first `?` (fragments after `#`, other query parameters after `&`, `+` and `%XX` decoding) is not modelled, so the lemma's conclusion is about that split only.
- Context cancellation (`ctx`) and `runtime.GOOS`/`runtime.GOARCH` (tfinstall/download.go:28-30) are not modelled; the platform is part of `TfInstall.Target`.
- Error texts built with `fmt.Errorf` are reduced to the `TfInstall.Error` kinds; the archive fetch's error (line 99) is returned as the fetcher produced it, so transport failures and checksum mismatches are one kind, `ArchiveFetchFailed`.
- `filepath.Join`'s path cleaning: a join is `dir + "/" + name`.
- The file handles opened at tfinstall/download.go:112 and 116 are never closed; resource handling is not modelled.
- tfexec/internal/e2etest/util_test.go is not part of this model: it is test-harness I/O.

## Findings

| source | as written | input that shows it | evidently intended | confidence | as-written member | corrected member |
|---|---|---|---|---|---|---|
| tfinstall/download.go:18-99 | with no install directory given, line 18 creates a temporary directory; every later failure returns `""`, so no caller learns its name, and it is never removed | `installDir == ""`, the temporary install directory is created, then the manifest fetch fails (or the signature fetch or check, the scratch creation, or the archive fetch) | a failed run removes the temporary install directory it created | medium, not executed | `TfInstall.DownloadWithVerification` (its last ensures: `path == ""`, `tfDir` exists now and did not before) | `TfInstall.DownloadCleaningUp` |
