/**
 * The world `downloadWithVerification` acts on: an abstract filesystem (the set
 * of paths that exist), the getter client whose fields the orchestrator sets
 * before each fetch, and the signature check. What the network, the operating
 * system and the OpenPGP library answer is chosen nondeterministically: every
 * contract below holds whatever they answer. A ghost event log records each
 * directory creation, removal, fetch and signature check in order.
 */
module System {

  /** `filepath.Join(dir, name)` for a `dir` without a trailing separator. */
  function Join(dir: string, name: string): (r: string)
    ensures Within(r, dir) && r != dir
    ensures r[|dir| + 1..] == name
  {
    dir + "/" + name
  }

  /** `p` is the directory `d` itself or lies somewhere beneath it. */
  predicate Within(p: string, d: string)
  {
    p == d || d + "/" <= p
  }

  /** No existing path is `d` or lies beneath it. */
  predicate IsFresh(d: string, paths: set<string>)
  {
    forall p :: p in paths ==> !Within(p, d)
  }

  /** Every path of `s` lies within `d`. */
  predicate AllWithin(s: set<string>, d: string)
  {
    forall p :: p in s ==> Within(p, d)
  }

  /** A length no existing path exceeds. */
  ghost function MaxLen(paths: set<string>): (n: nat)
    ensures forall p :: p in paths ==> |p| <= n
    decreases paths
  {
    if paths == {} then 0
    else
      var q :| q in paths;
      var m := MaxLen(paths - {q});
      if |q| < m then m else |q|
  }

  /** The getter client's modes (getter.ClientModeInvalid, Any, File, Dir). */
  datatype Mode = Invalid | Any | File | Dir

  datatype Event =
    | Created(dir: string)                                     // a fresh temporary directory
    | Removed(dir: string)                                     // os.RemoveAll
    | Fetched(src: string, dst: string, mode: Mode, ok: bool)  // one client.Get
    | Checked(sumsPath: string, sigPath: string, ok: bool)     // one verifySumsSignature

  /** The host's filesystem and the record of what was done to it. */
  class Host {
    /** `os.TempDir()`: where temporary directories are made. */
    const tempRoot: string
    /** Every file and directory that exists. */
    var paths: set<string>
    ghost var log: seq<Event>

    constructor (tempRoot: string, paths: set<string>)
      ensures this.tempRoot == tempRoot && this.paths == paths && log == []
    {
      this.tempRoot := tempRoot;
      this.paths := paths;
      log := [];
    }

    /**
     * `ioutil.TempDir("", prefix)`: either fails and changes nothing, or
     * creates a new directory named by the prefix and a random suffix, beneath
     * which nothing existed before.
     */
    method TempDir(prefix: string) returns (dir: string, failed: bool)
      modifies this`paths, this`log
      ensures failed ==> dir == "" && paths == old(paths) && log == old(log)
      ensures !failed ==> Join(tempRoot, prefix) <= dir && IsFresh(dir, old(paths))
      ensures !failed ==> paths == old(paths) + {dir} && log == old(log) + [Created(dir)]
    {
      failed := *;
      if failed {
        return "", true;
      }
      var stem := Join(tempRoot, prefix);
      ghost var longer := stem + seq(MaxLen(paths) + 1, _ => '0');
      assert IsFresh(longer, paths);
      dir :| stem <= dir && IsFresh(dir, paths);
      paths := paths + {dir};
      log := log + [Created(dir)];
    }

    /** `os.Stat(p)` succeeds exactly when `p` exists. */
    method Stat(p: string) returns (ok: bool)
      ensures ok <==> p in paths
    {
      ok := p in paths;
    }

    /** `os.RemoveAll(d)`: `d` and everything beneath it is gone, nothing else. */
    method RemoveAll(d: string)
      modifies this`paths, this`log
      ensures paths == set r | r in old(paths) && !Within(r, d)
      ensures log == old(log) + [Removed(d)]
    {
      paths := set r | r in paths && !Within(r, d);
      log := log + [Removed(d)];
    }

    /**
     * `verifySumsSignature`: whether the signature file verifies the manifest
     * file against the embedded key is the OpenPGP library's answer, so either
     * outcome is possible; the check is recorded with its outcome.
     */
    method VerifySumsSignature(sumsPath: string, sumsSigPath: string) returns (ok: bool)
      modifies this`log
      ensures log == old(log) + [Checked(sumsPath, sumsSigPath, ok)]
    {
      ok := *;
      log := log + [Checked(sumsPath, sumsSigPath, ok)];
    }
  }

  /** The getter client: where the next `Get` fetches from, into, and how. */
  class Client {
    var src: string
    var dst: string
    var mode: Mode

    constructor ()
      ensures src == "" && dst == "" && mode == Invalid
    {
      src, dst, mode := "", "", Invalid;
    }

    /**
     * `client.Get()`: the transfer may fail; whether or not it does, whatever
     * it wrote lies beneath the destination, and nothing else changed.
     */
    method Get(host: Host) returns (ok: bool)
      modifies host`paths, host`log
      ensures host.log == old(host.log) + [Fetched(src, dst, mode, ok)]
      ensures old(host.paths) <= host.paths
      ensures AllWithin(host.paths - old(host.paths), dst)
    {
      ok := *;
      var written: set<string> :| AllWithin(written, dst);
      assert AllWithin(written, dst);
      assert forall p :: p in written ==> Within(p, dst);
      host.paths := host.paths + written;
      host.log := host.log + [Fetched(src, dst, mode, ok)];
    }
  }
}
