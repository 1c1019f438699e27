/** The application-path derivation and the loader/activator registration of
    FubuMvcPackageFacility. The environment lookups (PhysicalRootPath,
    HostingEnvironment.ApplicationPhysicalPath, AppDomain.BaseDirectory) are
    parameters; C# null is `None`. */
module PackageFacility {
  import opened Common

  /** `suffix` is the tail of `s`, compared character by character. */
  predicate EndsWith(s: string, suffix: string)
  {
    |suffix| <= |s| && s[|s| - |suffix|..] == suffix
  }

  /** string.TrimEnd(c): drop every trailing occurrence of `c`. The result is the
      longest prefix of `s` that does not end in `c` and after which only `c`s follow. */
  function TrimEnd(s: string, c: char): (r: string)
    ensures r <= s
    ensures r == [] || r[|r| - 1] != c
    ensures forall i :: |r| <= i < |s| ==> s[i] == c
    decreases |s|
  {
    if |s| > 0 && s[|s| - 1] == c then TrimEnd(s[..|s| - 1], c) else s
  }

  /** determineApplicationPathFromAppDomain, given the AppDomain's base directory. */
  function PathFromBaseDirectory(basePath: string): (path: string)
    ensures path <= basePath
    ensures !EndsWith(basePath, "bin") ==> path == basePath
    ensures EndsWith(basePath, "bin") ==> |path| <= |basePath| - 3 && (path == [] || path[|path| - 1] != '\\')
  {
    if EndsWith(basePath, "bin") then
      TrimEnd(TrimEnd(basePath[..|basePath| - 3], '/'), '\\')
    else
      basePath
  }

  /** GetApplicationPath: `PhysicalRootPath ?? HostingEnvironment.ApplicationPhysicalPath
      ?? determineApplicationPathFromAppDomain()`. */
  function GetApplicationPath(physicalRootPath: Option<string>, hostingPath: Option<string>,
                              baseDirectory: string): (path: string)
    ensures path == Coalesce([physicalRootPath, hostingPath], PathFromBaseDirectory(baseDirectory))
  {
    assert [physicalRootPath, hostingPath][1..] == [hostingPath];
    assert [hostingPath][1..] == [];
    assert Coalesce([hostingPath], PathFromBaseDirectory(baseDirectory))
           == if hostingPath.Some? then hostingPath.value else Coalesce([], PathFromBaseDirectory(baseDirectory));
    match physicalRootPath
    case Some(p) => p
    case None =>
      match hostingPath
      case Some(h) => h
      case None => PathFromBaseDirectory(baseDirectory)
  }

  /** Reference definition of a chain of `??`: the first non-null candidate, else the last resort. */
  function Coalesce(candidates: seq<Option<string>>, lastResort: string): string
  {
    if candidates == [] then lastResort
    else if candidates[0].Some? then candidates[0].value
    else Coalesce(candidates[1..], lastResort)
  }

  /** Consequences of the first-non-null rule: a non-null PhysicalRootPath wins even
      when it is empty (and then no loader is registered), and the hosting path is
      used when PhysicalRootPath is null and it is not. */
  lemma ApplicationPathPrecedence(physicalRootPath: Option<string>, hostingPath: Option<string>,
                                  baseDirectory: string)
    ensures physicalRootPath.Some? ==>
            GetApplicationPath(physicalRootPath, hostingPath, baseDirectory) == physicalRootPath.value
    ensures physicalRootPath.None? && hostingPath.Some? ==>
            GetApplicationPath(physicalRootPath, hostingPath, baseDirectory) == hostingPath.value
  {
  }

  /** A base directory ending in "bin" loses those three characters, then its trailing
      '/' characters, then its trailing '\' characters: the input is the result, a run of
      '\', a run of '/', and "bin", in that order. The result never ends in '\'. */
  lemma BinSuffixStripped(basePath: string)
    requires EndsWith(basePath, "bin")
    ensures var r := PathFromBaseDirectory(basePath);
            var t := TrimEnd(basePath[..|basePath| - 3], '/');
            && r <= t <= basePath
            && |t| <= |basePath| - 3
            && (forall i :: |r| <= i < |t| ==> basePath[i] == '\\')
            && (forall i :: |t| <= i < |basePath| - 3 ==> basePath[i] == '/')
            && basePath[|basePath| - 3..] == "bin"
            && (r == [] || r[|r| - 1] != '\\')
  {
    var n := |basePath| - 3;
    var t := TrimEnd(basePath[..n], '/');
    assert t <= basePath[..n];
    forall i | |t| <= i < n ensures basePath[i] == '/' {
      assert basePath[..n][i] == basePath[i];
    }
  }

  /** The test is textual: a directory merely named like "...bin" is cut too. */
  lemma SuffixTestIsTextual()
    ensures PathFromBaseDirectory("/srv/cabin") == "/srv/ca"
  {
    var s := "/srv/cabin";
    assert EndsWith(s, "bin") by { assert s[|s| - 3..] == "bin"; }
    assert s[..|s| - 3] == "/srv/ca";
    assert TrimEnd("/srv/ca", '/') == "/srv/ca";
    assert TrimEnd("/srv/ca", '\\') == "/srv/ca";
  }

  /** Separators are trimmed '/' first and '\' second, so a '/' hidden behind a '\'
      survives: the derived path can still end in a separator. */
  lemma SlashBeforeBackslashSurvives()
    ensures PathFromBaseDirectory("app/\\bin") == "app/"
  {
    var s := "app/\\bin";
    assert EndsWith(s, "bin") by { assert s[|s| - 3..] == "bin"; }
    assert s[..|s| - 3] == "app/\\";
    assert TrimEnd("app/\\", '/') == "app/\\";
    assert "app/\\"[..4] == "app/";
    assert TrimEnd("app/", '\\') == "app/";
  }

  /** The activators and loaders the facility registers. */
  datatype PackageLoader = PackageManifestReader(applicationPath: string)
                         | ZipFilePackageReader(applicationPath: string)
  datatype PackageActivator = VirtualPathProviderActivator | PackageFolderActivator

  /** FubuMvcPackageFacility. The PackageFacility base class is not part of this model;
      its Loader and Activator calls are modelled as appends to two lists. */
  class FubuMvcPackageFacility {
    var loaders: seq<PackageLoader>
    var activators: seq<PackageActivator>

    /** Loaders are registered only for a non-empty application path, the manifest
        reader (development mode) before the zip reader (production mode); the two
        activators are always registered, virtual-path provider first. */
    constructor (physicalRootPath: Option<string>, hostingPath: Option<string>, baseDirectory: string)
      ensures var path := GetApplicationPath(physicalRootPath, hostingPath, baseDirectory);
              loaders == (if |path| > 0 then [PackageManifestReader(path), ZipFilePackageReader(path)] else [])
      ensures activators == [VirtualPathProviderActivator, PackageFolderActivator]
    {
      loaders := [];
      activators := [];
      new;
      var applicationPath := GetApplicationPath(physicalRootPath, hostingPath, baseDirectory);
      if |applicationPath| > 0 {
        Loader(PackageManifestReader(applicationPath));
        Loader(ZipFilePackageReader(applicationPath));
      }
      Activator(VirtualPathProviderActivator);
      Activator(PackageFolderActivator);
    }

    method Loader(loader: PackageLoader)
      modifies this`loaders
      ensures loaders == old(loaders) + [loader]
    {
      loaders := loaders + [loader];
    }

    method Activator(activator: PackageActivator)
      modifies this`activators
      ensures activators == old(activators) + [activator]
    {
      activators := activators + [activator];
    }
  }
}
