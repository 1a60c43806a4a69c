/**
 * The release distribution scheme: the names of the checksum manifest, of its
 * detached signature and of the release archive, and the URLs they are fetched
 * from (tfinstall/download.go, `downloadWithVerification` and `tfUrl`).
 *
 * The distribution root (`baseUrl`) is defined outside the modelled file, so
 * every URL function takes it as the parameter `base`.
 */
module Urls {
  import opened Wrappers

  const ReleasePrefix := "terraform_"
  const SumsSuffix := "_SHA256SUMS"
  const SigExt := ".sig"
  const ArchiveExt := ".zip"
  /** The query that tells the fetcher which manifest to check the archive against. */
  const ChecksumKey := "checksum=file:"

  /** `s` begins with `p`. */
  predicate StartsWith(s: string, p: string)
  {
    |p| <= |s| && s[..|p|] == p
  }

  /** `s` finishes with `p`. */
  predicate EndsWith(s: string, p: string)
  {
    |p| <= |s| && s[|s| - |p|..] == p
  }

  /** `fmt.Sprintf("%s/%s/%s", baseUrl, tfVersion, file)`: a file of one release. */
  function ReleaseUrl(base: string, version: string, file: string): (r: string)
    ensures StartsWith(r, base + "/" + version + "/") && EndsWith(r, file)
    ensures |r| == |base| + |version| + |file| + 2
  {
    base + "/" + version + "/" + file
  }

  /** The checksum manifest's file name, `terraform_<v>_SHA256SUMS`. */
  function SumsFilename(version: string): (r: string)
    ensures StartsWith(r, ReleasePrefix + version) && EndsWith(r, SumsSuffix)
    ensures |r| == |version| + |ReleasePrefix| + |SumsSuffix|
  {
    ReleasePrefix + version + SumsSuffix
  }

  /** The detached signature's file name: the manifest's name followed by `.sig`. */
  function SumsSigFilename(version: string): (r: string)
    ensures StartsWith(r, SumsFilename(version)) && EndsWith(r, SigExt)
    ensures |r| == |SumsFilename(version)| + |SigExt|
  {
    SumsFilename(version) + SigExt
  }

  /** The URL the checksum manifest is fetched from. */
  function SumsUrl(base: string, version: string): (r: string)
    ensures StartsWith(r, base + "/" + version + "/") && EndsWith(r, SumsFilename(version))
    ensures |r| == |base| + |version| + |SumsFilename(version)| + 2
  {
    ReleaseUrl(base, version, SumsFilename(version))
  }

  /** The URL the detached signature is fetched from. */
  function SumsSigUrl(base: string, version: string): (r: string)
    ensures r == SumsUrl(base, version) + SigExt
  {
    ReleaseUrl(base, version, SumsSigFilename(version))
  }

  /** The release archive's file name for one platform. */
  function ArchiveFilename(version: string, osName: string, archName: string): (r: string)
    ensures StartsWith(r, ReleasePrefix + version + "_" + osName + "_" + archName) && EndsWith(r, ArchiveExt)
    ensures |r| == |ReleasePrefix| + |version| + |osName| + |archName| + |ArchiveExt| + 2
  {
    ReleasePrefix + version + "_" + osName + "_" + archName + ArchiveExt
  }

  /**
   * `tfUrl`: the archive URL, with a query naming the manifest URL the fetcher
   * checks the archive's checksum against. The body follows the source's single
   * format string; the contract says that the URL is the archive's release URL
   * followed by `?checksum=file:` and then exactly the manifest URL that
   * `SumsUrl` builds for the same base and version.
   */
  function TfUrl(base: string, version: string, osName: string, archName: string): (r: string)
    ensures r == ReleaseUrl(base, version, ArchiveFilename(version, osName, archName))
                 + "?" + ChecksumKey + SumsUrl(base, version)
  {
    var sumsUrl := base + "/" + version + "/" + ("terraform_" + version + "_SHA256SUMS");
    var archiveUrl := base + "/" + version + "/"
                      + ("terraform_" + version + "_" + osName + "_" + archName + ".zip");
    assert "terraform_" == ReleasePrefix && "_SHA256SUMS" == SumsSuffix && ".zip" == ArchiveExt;
    assert "?checksum=file:" == "?" + ChecksumKey;
    archiveUrl + "?checksum=file:" + sumsUrl
  }

  /** Reads the version back out of a manifest file name, if it is one. */
  function ParseSumsFilename(name: string): (r: Option<string>)
    ensures r.Some? ==> SumsFilename(r.value) == name
  {
    var n := |name|;
    if n >= |ReleasePrefix| + |SumsSuffix|
       && name[..|ReleasePrefix|] == ReleasePrefix
       && name[n - |SumsSuffix|..] == SumsSuffix
    then
      var v := name[|ReleasePrefix|..n - |SumsSuffix|];
      assert name == ReleasePrefix + v + SumsSuffix by {
        assert name == name[..|ReleasePrefix|] + v + name[n - |SumsSuffix|..];
      }
      Some(v)
    else None
  }

  /** A manifest name always parses back to the version it was built from. */
  lemma SumsFilenameRoundTrip(version: string)
    ensures ParseSumsFilename(SumsFilename(version)) == Some(version)
  {
    var name := SumsFilename(version);
    var n := |name|;
    assert name[..|ReleasePrefix|] == ReleasePrefix;
    assert name[n - |SumsSuffix|..] == SumsSuffix;
    assert name[|ReleasePrefix|..n - |SumsSuffix|] == version;
  }

  /** Two versions never share a manifest URL under one distribution root. */
  lemma SumsUrlInjective(base: string, v1: string, v2: string)
    requires SumsUrl(base, v1) == SumsUrl(base, v2)
    ensures v1 == v2
  {
    var u := SumsUrl(base, v1);
    assert |u| == |base| + 2 * |v1| + 2 + |ReleasePrefix| + |SumsSuffix|;
    assert |SumsUrl(base, v2)| == |base| + 2 * |v2| + 2 + |ReleasePrefix| + |SumsSuffix|;
    var lo := |base| + 1;
    assert u[lo..lo + |v1|] == v1;
    assert SumsUrl(base, v2)[lo..lo + |v2|] == v2;
  }

  /** A locator split at its first `?` into the path and the query. */
  datatype Locator = Locator(path: string, query: Option<string>)

  /** The position of the first `c` in `s`, or `|s|` when there is none. */
  function IndexOf(s: string, c: char): (i: nat)
    ensures i <= |s|
    ensures i < |s| ==> s[i] == c
    ensures forall j :: 0 <= j < i ==> s[j] != c
  {
    if s == [] then 0
    else if s[0] == c then 0
    else 1 + IndexOf(s[1..], c)
  }

  /**
   * Splits a URL at its first `?` into what precedes it and what follows it;
   * fragments (`#`) and query decoding (`+`, `%XX`, `&`) are not modelled.
   */
  function SplitQuery(url: string): (r: Locator)
    ensures r.query.None? ==> r.path == url && '?' !in url
    ensures r.query.Some? ==> url == r.path + "?" + r.query.value && '?' !in r.path
  {
    var i := IndexOf(url, '?');
    if i == |url| then Locator(url, None)
    else
      assert url == url[..i] + "?" + url[i + 1..];
      Locator(url[..i], Some(url[i + 1..]))
  }

  /** A string with no `?` before a `?` is the whole path in front of the query. */
  lemma SplitAtFirstMark(a: string, q: string)
    requires '?' !in a
    ensures SplitQuery(a + "?" + q) == Locator(a, Some(q))
  {
    var url := a + "?" + q;
    var r := SplitQuery(url);
    assert url[|a|] == '?';
    assert |r.path| == |a|;
    assert r.path == url[..|a|] == a;
  }

  /**
   * When no part of it holds a `?`, splitting the archive URL at its first `?`
   * leaves exactly `checksum=file:` followed by the manifest URL that is
   * fetched and signature-checked.
   */
  lemma TfUrlChecksumReference(base: string, version: string, osName: string, archName: string)
    requires '?' !in base && '?' !in version && '?' !in osName && '?' !in archName
    ensures SplitQuery(TfUrl(base, version, osName, archName))
            == Locator(ReleaseUrl(base, version, ArchiveFilename(version, osName, archName)),
                       Some(ChecksumKey + SumsUrl(base, version)))
  {
    var file := ArchiveFilename(version, osName, archName);
    assert '?' !in ReleasePrefix && '?' !in ArchiveExt;
    assert '?' !in file;
    var path := ReleaseUrl(base, version, file);
    assert '?' !in path;
    var query := ChecksumKey + SumsUrl(base, version);
    assert TfUrl(base, version, osName, archName) == path + "?" + query;
    SplitAtFirstMark(path, query);
  }

  /** The manifest and signature URLs of release 1.0.7, under any distribution root. */
  lemma ExampleUrls(base: string)
    ensures SumsUrl(base, "1.0.7") == base + "/1.0.7/terraform_1.0.7_SHA256SUMS"
    ensures SumsSigUrl(base, "1.0.7") == base + "/1.0.7/terraform_1.0.7_SHA256SUMS.sig"
  {
    var name := SumsFilename("1.0.7");
    assert "/1.0.7/" + name == "/1.0.7/terraform_1.0.7_SHA256SUMS";
    assert "/1.0.7/" + (name + SigExt) == "/1.0.7/terraform_1.0.7_SHA256SUMS.sig";
    StringAssoc(base, "/1.0.7/", name);
    StringAssoc(base, "/1.0.7/", name + SigExt);
    assert base + "/" + "1.0.7" + "/" == base + "/1.0.7/";
  }

  /** Concatenation of strings regroups freely. */
  lemma StringAssoc(a: string, b: string, c: string)
    ensures (a + b) + c == a + (b + c)
  {
  }
}
