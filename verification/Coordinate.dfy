/**
 Store coordinates `<namespace>/<plugin_id>[@<version>]` and release
 resolution (internal/install/coordinate.go, internal/oci/plugindetail.go:10-60).
 */
module Coordinate {
  import opened Wrappers

  /** `unicode.IsSpace`. */
  predicate IsSpace(c: char)
  {
    || '\t' <= c <= '\r' || c == ' ' || c == '\U{85}' || c == '\U{A0}' || c == '\U{1680}'
    || '\U{2000}' <= c <= '\U{200A}' || c == '\U{2028}' || c == '\U{2029}' || c == '\U{202F}'
    || c == '\U{205F}' || c == '\U{3000}'
  }

  function TrimLeft(s: string): string
  {
    if s != "" && IsSpace(s[0]) then TrimLeft(s[1..]) else s
  }

  function TrimRight(s: string): string
  {
    if s != "" && IsSpace(s[|s| - 1]) then TrimRight(s[..|s| - 1]) else s
  }

  function TrimSpace(s: string): string
  {
    TrimRight(TrimLeft(s))
  }

  /** `strings.Cut`: the text around the first separator, if there is one. */
  function Cut(s: string, sep: char): (string, string, bool)
  {
    if s == "" then ("", "", false)
    else if s[0] == sep then ("", s[1..], true)
    else
      var (before, after, found) := Cut(s[1..], sep);
      ([s[0]] + before, after, found)
  }

  predicate IsAlphanumeric(c: char)
  {
    'a' <= c <= 'z' || 'A' <= c <= 'Z' || '0' <= c <= '9'
  }

  /** A safe path component: letters, digits, '.', '_', '-', starting with a letter or digit. */
  predicate ValidSegment(s: string)
  {
    s != "" && IsAlphanumeric(s[0]) &&
    forall i :: 0 <= i < |s| ==> IsAlphanumeric(s[i]) || s[i] == '.' || s[i] == '_' || s[i] == '-'
  }

  /** Drop a leading "v" before a digit. */
  function NormalizeVersion(v: string): (r: string)
    ensures r == v || (v == ['v'] + r && r != "" && '0' <= r[0] <= '9')
    ensures !(|r| >= 2 && r[0] == 'v' && '0' <= r[1] <= '9')
  {
    if |v| >= 2 && v[0] == 'v' && '0' <= v[1] <= '9' then v[1..] else v
  }

  datatype Parsed = Parsed(namespace: string, pluginId: string, version: string) {
    function Name(): string
    {
      namespace + "/" + pluginId
    }
  }

  /** A trimmed name and version, once the argument has been taken apart. */
  function ParseParts(name: string, version: string): Result<Parsed, ()>
  {
    var (namespace, pluginId, found) := Cut(name, '/');
    if found && ValidSegment(namespace) && ValidSegment(pluginId) then Ok(Parsed(namespace, pluginId, version))
    else Err(())
  }

  function ParseCoordinate(arg: string): Result<Parsed, ()>
  {
    var trimmed := TrimSpace(arg);
    if trimmed == "" then Err(())
    else
      var (coord, ver, _) := Cut(trimmed, '@');
      ParseParts(TrimSpace(coord), NormalizeVersion(TrimSpace(ver)))
  }

  lemma {:induction false} CutAround(a: string, b: string, sep: char)
    requires sep !in a
    ensures Cut(a + [sep] + b, sep) == (a, b, true)
    ensures Cut(a, sep) == (a, "", false)
  {
    if a == "" {
      assert ("" + [sep] + b)[1..] == b;
    } else {
      CutAround(a[1..], b, sep);
      assert (a + [sep] + b)[1..] == a[1..] + [sep] + b;
      assert a == [a[0]] + a[1..];
    }
  }

  lemma {:induction false} CutRejoins(s: string, sep: char)
    ensures var (a, b, found) := Cut(s, sep); sep !in a && s == if found then a + [sep] + b else a
  {
    if s != "" {
      assert s == [s[0]] + s[1..];
      if s[0] != sep {
        CutRejoins(s[1..], sep);
        var (a, b, found) := Cut(s[1..], sep);
        assert found ==> [s[0]] + (a + [sep] + b) == ([s[0]] + a) + [sep] + b;
      }
    }
  }

  lemma {:induction false} TrimLeftAppend(a: string, b: string)
    requires b != "" && !IsSpace(b[0])
    ensures TrimLeft(a + b) == TrimLeft(a) + b
  {
    if a == "" {
      assert a + b == b;
    } else if IsSpace(a[0]) {
      TrimLeftAppend(a[1..], b);
      assert (a + b)[1..] == a[1..] + b;
    }
  }

  lemma {:induction false} TrimRightAppend(a: string, b: string)
    requires a != "" && !IsSpace(a[|a| - 1])
    ensures TrimRight(a + b) == a + TrimRight(b)
  {
    if b == "" {
      assert a + b == a;
    } else {
      assert (a + b)[..|a + b| - 1] == a + b[..|b| - 1];
      if IsSpace(b[|b| - 1]) {
        TrimRightAppend(a, b[..|b| - 1]);
      }
    }
  }

  lemma {:induction false} TrimLeftTwice(s: string)
    ensures TrimLeft(TrimLeft(s)) == TrimLeft(s)
  {
    if s != "" && IsSpace(s[0]) {
      TrimLeftTwice(s[1..]);
    }
  }

  lemma {:induction false} TrimRightTwice(s: string)
    ensures TrimRight(TrimRight(s)) == TrimRight(s)
  {
    if s != "" && IsSpace(s[|s| - 1]) {
      TrimRightTwice(s[..|s| - 1]);
    }
  }

  /** The two trims commute. */
  lemma {:induction false} TrimsCommute(s: string)
    ensures TrimRight(TrimLeft(s)) == TrimLeft(TrimRight(s))
    decreases |s|
  {
    if s != "" {
      var n := |s| - 1;
      if IsSpace(s[n]) {
        TrimsCommute(s[..n]);
        DropSpace(s);
      } else {
        assert s == s[..n] + [s[n]];
        TrimLeftAppend(s[..n], [s[n]]);
      }
    }
  }

  lemma {:induction false} DropSpace(s: string)
    requires s != "" && IsSpace(s[|s| - 1])
    ensures TrimRight(TrimLeft(s)) == TrimRight(TrimLeft(s[..|s| - 1]))
    decreases |s|
  {
    var n := |s| - 1;
    if IsSpace(s[0]) {
      if n > 0 {
        DropSpace(s[1..]);
        assert s[1..][..n - 1] == s[..n][1..];
      } else {
        assert s[1..] == "" && s[..0] == "";
      }
    } else {
      assert TrimLeft(s) == s && TrimLeft(s[..n]) == s[..n];
    }
  }

  lemma TrimOfTrimLeft(s: string)
    ensures TrimSpace(TrimLeft(s)) == TrimSpace(s)
  {
    TrimLeftTwice(s);
  }

  lemma TrimOfTrimRight(s: string)
    ensures TrimSpace(TrimRight(s)) == TrimSpace(s)
  {
    TrimsCommute(s);
    TrimsCommute(TrimRight(s));
    TrimRightTwice(s);
  }

  lemma {:induction false} TrimLeftKeepsOut(s: string, c: char)
    requires c !in s
    ensures c !in TrimLeft(s)
  {
    if s != "" && IsSpace(s[0]) {
      TrimLeftKeepsOut(s[1..], c);
    }
  }

  lemma {:induction false} TrimRightKeepsOut(s: string, c: char)
    requires c !in s
    ensures c !in TrimRight(s)
  {
    if s != "" && IsSpace(s[|s| - 1]) {
      TrimRightKeepsOut(s[..|s| - 1], c);
    }
  }

  predicate AllSpace(s: string)
  {
    forall i :: 0 <= i < |s| ==> IsSpace(s[i])
  }

  lemma {:induction false} TrimLeftMeaning(s: string) returns (before: string)
    ensures s == before + TrimLeft(s) && AllSpace(before) && (TrimLeft(s) == "" || !IsSpace(TrimLeft(s)[0]))
  {
    if s != "" && IsSpace(s[0]) {
      var rest := TrimLeftMeaning(s[1..]);
      before := [s[0]] + rest;
      assert s == [s[0]] + s[1..];
    } else {
      before := "";
    }
  }

  lemma {:induction false} TrimRightMeaning(s: string) returns (after: string)
    ensures s == TrimRight(s) + after && AllSpace(after)
    ensures TrimRight(s) == "" || !IsSpace(TrimRight(s)[|TrimRight(s)| - 1])
  {
    if s != "" && IsSpace(s[|s| - 1]) {
      var rest := TrimRightMeaning(s[..|s| - 1]);
      after := rest + [s[|s| - 1]];
      assert s == s[..|s| - 1] + [s[|s| - 1]];
    } else {
      after := "";
    }
  }

  /** Trimming takes space off both ends, and all of it. */
  lemma TrimMeaning(s: string) returns (before: string, after: string)
    ensures s == before + TrimSpace(s) + after && AllSpace(before) && AllSpace(after)
    ensures TrimSpace(s) == "" || (!IsSpace(TrimSpace(s)[0]) && !IsSpace(TrimSpace(s)[|TrimSpace(s)| - 1]))
  {
    before := TrimLeftMeaning(s);
    after := TrimRightMeaning(TrimLeft(s));
  }

  /** The argument the installer builds for a service's plugin and version. */
  function Arg(name: string, version: string): string
  {
    if version == "" then name else name + "@" + version
  }

  lemma ParseUnpinned(name: string)
    requires '@' !in name
    ensures ParseCoordinate(name) == ParseParts(TrimSpace(name), "")
  {
    var trimmed := TrimSpace(name);
    TrimLeftKeepsOut(name, '@');
    TrimRightKeepsOut(TrimLeft(name), '@');
    CutAround(trimmed, "", '@');
    TrimOfTrimLeft(name);
    TrimOfTrimRight(TrimLeft(name));
    assert TrimSpace(trimmed) == trimmed;
    assert TrimSpace("") == "";
  }

  lemma TrimAround(a: string, middle: string, b: string)
    requires middle != "" && !IsSpace(middle[0]) && !IsSpace(middle[|middle| - 1])
    ensures TrimSpace(a + middle + b) == TrimLeft(a) + middle + TrimRight(b)
  {
    assert a + middle + b == a + (middle + b);
    TrimLeftAppend(a, middle + b);
    assert TrimLeft(a) + (middle + b) == (TrimLeft(a) + middle) + b;
    TrimRightAppend(TrimLeft(a) + middle, b);
  }

  lemma TrimPinned(name: string, version: string)
    ensures TrimSpace(name + "@" + version) == TrimLeft(name) + ['@'] + TrimRight(version)
  {
    var at := "@";
    assert |at| == 1 && at[0] == '@' && !IsSpace('@');
    TrimAround(name, at, version);
    assert at == ['@'];
  }

  lemma ParsePinned(name: string, version: string)
    requires '@' !in name
    ensures ParseCoordinate(name + "@" + version) == ParseParts(TrimSpace(name), NormalizeVersion(TrimSpace(version)))
  {
    TrimPinned(name, version);
    TrimLeftKeepsOut(name, '@');
    CutAround(TrimLeft(name), TrimRight(version), '@');
    TrimOfTrimLeft(name);
    TrimOfTrimRight(version);
  }

  /** Parsing an argument trims its two parts separately. */
  lemma ParseOfArg(name: string, version: string)
    requires '@' !in name
    ensures ParseCoordinate(Arg(name, version)) == ParseParts(TrimSpace(name), NormalizeVersion(TrimSpace(version)))
  {
    if version == "" {
      ParseUnpinned(name);
      assert NormalizeVersion(TrimSpace("")) == "";
    } else {
      ParsePinned(name, version);
    }
  }

  /** What parsing accepts has no '@', no '/' in its segments and no surrounding space. */
  lemma ParsedName(name: string, version: string)
    requires ParseParts(name, version).Ok?
    ensures ParseParts(name, version).value.Name() == name
    ensures '@' !in name && TrimSpace(name) == name
  {
    var p := ParseParts(name, version).value;
    CutRejoins(name, '/');
    assert name == p.namespace + "/" + p.pluginId;
    forall i | 0 <= i < |name| ensures name[i] != '@' {
      if i < |p.namespace| {
        assert name[i] == p.namespace[i];
      } else if i > |p.namespace| {
        assert name[i] == p.pluginId[i - |p.namespace| - 1];
      }
    }
    assert name[0] == p.namespace[0] && name[|name| - 1] == p.pluginId[|p.pluginId| - 1];
    assert TrimLeft(name) == name;
  }

  /** What parsing accepts: exactly two safe segments around a '/'. */
  lemma ParsePartsIff(namespace: string, pluginId: string, version: string)
    requires '/' !in namespace
    ensures ParseParts(namespace + "/" + pluginId, version) ==
      if ValidSegment(namespace) && ValidSegment(pluginId) then Ok(Parsed(namespace, pluginId, version)) else Err(())
    ensures ParseParts(namespace, version).Err?
  {
    CutAround(namespace, pluginId, '/');
    assert namespace + "/" + pluginId == namespace + ['/'] + pluginId;
  }

  /** A safe segment is one file name and nothing else. */
  lemma SegmentIsSafe(s: string)
    requires ValidSegment(s)
    ensures s != "" && s != "." && s != ".." && s[0] != '-'
    ensures '/' !in s && '\\' !in s && '@' !in s && ' ' !in s && ':' !in s && '\0' !in s
  {
  }

  /** A version written by hand normalizes to the same whether or not it was normalized before. */
  lemma NormalizeIdempotent(v: string)
    ensures NormalizeVersion(NormalizeVersion(v)) == NormalizeVersion(v)
  {
  }

  // ---------------------------------------------------------------------
  // Releases

  datatype Release = Release(version: string, indexDigest: string)

  /** The hub's record of a plugin. Nothing ties its namespace and id to what was asked for. */
  datatype PluginDetail = PluginDetail(
    namespace: string, pluginId: string, latestVersion: string, signerIdentity: string, releases: seq<Release>) {
    function Coordinate(): string
    {
      namespace + "/" + pluginId
    }
  }

  predicate FirstOf(releases: seq<Release>, version: string, i: int)
  {
    0 <= i < |releases| && releases[i].version == version && forall j :: 0 <= j < i ==> releases[j].version != version
  }

  function FindRelease(releases: seq<Release>, version: string): (r: Option<Release>)
    ensures r.Some? ==> exists i :: FirstOf(releases, version, i) && releases[i] == r.value
    ensures r.None? <==> forall x :: x in releases ==> x.version != version
  {
    if releases == [] then None
    else if releases[0].version == version then Some(releases[0])
    else
      var rest := FindRelease(releases[1..], version);
      assert forall x :: x in releases ==> x == releases[0] || x in releases[1..];
      assert forall i :: FirstOf(releases[1..], version, i) ==> FirstOf(releases, version, i + 1);
      rest
  }

  /** The requested release, or the latest; a latest version missing from the list gives a stub without digest. */
  function ResolveRelease(d: PluginDetail, requested: string): (r: Result<Release, ()>)
    ensures r.Ok? ==> r.value.version == if requested == "" then d.latestVersion else requested
    ensures r.Ok? ==>
      || (exists i :: FirstOf(d.releases, r.value.version, i) && d.releases[i] == r.value)
      || (requested == "" && r.value.indexDigest == "" && forall x :: x in d.releases ==> x.version != d.latestVersion)
    ensures r.Err? <==>
      if requested == "" then d.latestVersion == "" else forall x :: x in d.releases ==> x.version != requested
  {
    if requested == "" then
      if d.latestVersion == "" then Err(())
      else match FindRelease(d.releases, d.latestVersion)
        case Some(release) => Ok(release)
        case None => Ok(Release(d.latestVersion, ""))
    else match FindRelease(d.releases, requested)
      case Some(release) => Ok(release)
      case None => Err(())
  }
}
