/**
 * The strings `download` builds for one row: the Wayback URL it fetches,
 * the host name taken from the parsed URL's network location, and the file
 * path the page is written to.
 */
module Snapshot {
  import opened Wrappers
  import opened Decimal

  const ArchivePrefix: string := "http://web.archive.org/web/"

  /** The `if_` flag asks the Wayback Machine for the page without its toolbar. */
  const RawMarker: string := "if_/"

  /** The URL fetched for a capture: fixed prefix, timestamp, `if_/`, then the original URL verbatim. */
  function ArchiveUrl(timestamp: string, original: string): string {
    ArchivePrefix + timestamp + RawMarker + original
  }

  /** How many decimal digits `s` starts with. */
  function DigitRun(s: string): (k: nat)
    ensures k <= |s| && AllDigits(s[..k])
    ensures k == |s| || !IsDigit(s[k])
  {
    if s != [] && IsDigit(s[0]) then
      var k := 1 + DigitRun(s[1..]);
      assert s[..k] == [s[0]] + s[1..][..k - 1];
      k
    else 0
  }

  /** Reads an archive URL back into its timestamp and original URL. */
  function SplitArchiveUrl(url: string): Option<(string, string)> {
    Unwrap(ArchivePrefix, RawMarker, url)
  }

  /** Reads `prefix`, a run of digits, `marker`, then the rest of `url`. */
  function Unwrap(prefix: string, marker: string, url: string): Option<(string, string)> {
    if |url| < |prefix| || url[..|prefix|] != prefix then None
    else
      var rest := url[|prefix|..];
      var k := DigitRun(rest);
      var tail := rest[k..];
      if |tail| < |marker| || tail[..|marker|] != marker then None
      else Some((rest[..k], tail[|marker|..]))
  }

  lemma {:induction false} DigitRunOfDigits(digits: string, rest: string)
    requires AllDigits(digits) && (rest == [] || !IsDigit(rest[0]))
    ensures DigitRun(digits + rest) == |digits|
    decreases |digits|
  {
    if digits != [] {
      assert (digits + rest)[1..] == digits[1..] + rest;
      DigitRunOfDigits(digits[1..], rest);
    } else {
      assert digits + rest == rest;
    }
  }

  lemma UnwrapWrap(prefix: string, marker: string, timestamp: string, original: string)
    requires AllDigits(timestamp) && marker != [] && !IsDigit(marker[0])
    ensures Unwrap(prefix, marker, prefix + timestamp + marker + original) == Some((timestamp, original))
  {
    var url := prefix + timestamp + marker + original;
    assert url[..|prefix|] == prefix;
    var rest := url[|prefix|..];
    assert rest == timestamp + (marker + original);
    DigitRunOfDigits(timestamp, marker + original);
    assert rest[|timestamp|..] == marker + original;
    assert rest[..|timestamp|] == timestamp;
  }

  lemma Regroup(a: string, b: string, c: string, d: string)
    ensures a + b + c + d == a + (b + (c + d))
  {
  }

  lemma WrapUnwrap(prefix: string, marker: string, url: string)
    requires Unwrap(prefix, marker, url).Some?
    ensures AllDigits(Unwrap(prefix, marker, url).value.0)
    ensures prefix + Unwrap(prefix, marker, url).value.0 + marker + Unwrap(prefix, marker, url).value.1 == url
  {
    var rest := url[|prefix|..];
    var k := DigitRun(rest);
    var tail := rest[k..];
    assert url == url[..|prefix|] + rest;
    assert rest == rest[..k] + tail;
    assert tail == tail[..|marker|] + tail[|marker|..];
    Regroup(prefix, rest[..k], marker, tail[|marker|..]);
  }

  /** A digit timestamp and any original URL can be read back from the archive URL. */
  lemma SplitArchiveUrlOfArchiveUrl(timestamp: string, original: string)
    requires AllDigits(timestamp)
    ensures SplitArchiveUrl(ArchiveUrl(timestamp, original)) == Some((timestamp, original))
  {
    UnwrapWrap(ArchivePrefix, RawMarker, timestamp, original);
  }

  /** Whatever reads back as a timestamp and an original URL is the archive URL of the two. */
  lemma ArchiveUrlOfSplitArchiveUrl(url: string)
    requires SplitArchiveUrl(url).Some?
    ensures AllDigits(SplitArchiveUrl(url).value.0)
    ensures ArchiveUrl(SplitArchiveUrl(url).value.0, SplitArchiveUrl(url).value.1) == url
  {
    WrapUnwrap(ArchivePrefix, RawMarker, url);
  }

  /** `netloc.split(':')[0]`: the network location up to its first colon. */
  function Host(netloc: string): (host: string)
    ensures |host| <= |netloc| && host == netloc[..|host|]
    ensures ':' !in host
    ensures host == netloc || netloc[|host|] == ':'
  {
    if netloc == [] || netloc[0] == ':' then ""
    else [netloc[0]] + Host(netloc[1..])
  }

  /** A network location without a port is its own host. */
  lemma HostWithoutPort(netloc: string)
    requires ':' !in netloc
    ensures Host(netloc) == netloc
  {
  }

  /** `path.lstrip('/')`: the path without its leading slashes. */
  function StripLeadingSlashes(path: string): (r: string)
    ensures r == [] || r[0] != '/'
    ensures |r| <= |path| && r == path[|path| - |r|..]
    ensures forall i :: 0 <= i < |path| - |r| ==> path[i] == '/'
  {
    if path != [] && path[0] == '/' then StripLeadingSlashes(path[1..]) else path
  }

  /** The directory part `a` contributes to a join: itself, with a slash added unless empty or already ending in one. */
  function DirPrefix(a: string): string {
    if a == [] || a[|a| - 1] == '/' then a else a + "/"
  }

  /**
   * `os.path.join(a, b)` on a POSIX system: an absolute `b` discards `a`,
   * otherwise `b` goes below the directory `a`, a slash being added after a
   * non-empty `a` that does not already end in one.
   */
  function Join(a: string, b: string): (r: string)
    ensures |b| <= |r| <= |a| + 1 + |b| && r[|r| - |b|..] == b
    ensures b != [] && b[0] == '/' ==> r == b
    ensures b == [] || b[0] != '/' ==> |a| <= |r| && r[..|a|] == a
    ensures (b == [] || b[0] != '/') && a != [] && a[|a| - 1] != '/' ==> |r| == |a| + 1 + |b| && r[|a|] == '/'
    ensures (b == [] || b[0] != '/') && (a == [] || a[|a| - 1] == '/') ==> |r| == |a| + |b|
  {
    if b != [] && b[0] == '/' then b
    else if a == [] || a[|a| - 1] == '/' then a + b
    else a + "/" + b
  }

  /**
   * The file a capture is written to: the script's directory, then the host,
   * then the URL path without its leading slashes.
   */
  function TargetPath(scriptDir: string, netloc: string, path: string): (r: string)
    ensures var rel := StripLeadingSlashes(path); |rel| <= |r| && r[|r| - |rel|..] == rel
  {
    var rel := StripLeadingSlashes(path);
    var r := Join(Join(scriptDir, Host(netloc)), rel);
    assert r == DirPrefix(Join(scriptDir, Host(netloc))) + rel;
    r
  }

  /**
   * For a real host name (no slash, not empty) the file always lands in the
   * host's directory below the script's directory: the URL path cannot reset
   * the join to the root, because its leading slashes are gone.
   */
  lemma TargetPathUnderHost(scriptDir: string, netloc: string, path: string)
    requires '/' !in netloc && Host(netloc) != []
    ensures TargetPath(scriptDir, netloc, path)
      == DirPrefix(scriptDir) + Host(netloc) + "/" + StripLeadingSlashes(path)
  {
    var host := Host(netloc);
    assert host[0] == netloc[0] && host[0] != '/';
    var dir := DirPrefix(scriptDir) + host;
    assert Join(scriptDir, host) == dir;
    assert dir[|dir| - 1] == netloc[|host| - 1] && dir[|dir| - 1] != '/';
    assert DirPrefix(dir) == dir + "/";
  }

  /**
   * Run from the current directory, `http://<host>/<rel>` for a host without
   * a port is written to `<host>/<rel>` (so `http://example.org/a/b` goes to
   * `example.org/a/b`).
   */
  lemma TargetPathInCurrentDirectory(netloc: string, rel: string)
    requires ':' !in netloc && '/' !in netloc && netloc != []
    requires rel == [] || rel[0] != '/'
    ensures TargetPath("", netloc, "/" + rel) == netloc + "/" + rel
  {
    var path := "/" + rel;
    HostWithoutPort(netloc);
    assert Host(netloc) == netloc;
    assert path[1..] == rel;
    assert StripLeadingSlashes(path) == rel;
    TargetPathUnderHost("", netloc, path);
    assert DirPrefix("") + netloc == netloc;
  }
}
