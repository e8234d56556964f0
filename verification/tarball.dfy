/** The tarball package source of the dependency layer: an unpinned
    declaration built from a `packages.yml` entry, merged with other
    declarations of the same tarball, pinned, and then described by the
    registry-style metadata and archive file name its installer uses. */
module Tarball {
  import opened Wrappers

  /** What every tarball package reports as its source kind. */
  const SourceType: string := "tarball"

  /** Number of attempts the installer gives the download-and-untar step. */
  const DownloadAttempts: nat := 5

  /** The declaration read from configuration: the tarball reference, the
      package name and an optional version. */
  datatype TarballContract = TarballContract(tarball: string, name: string, version: Option<string>)

  /** A tarball declaration before pinning. Its identity is the tarball reference. */
  datatype UnpinnedPackage = UnpinnedPackage(tarball: string, package: string, version: Option<string>)
  {
    function Name(): string { tarball }

    function SourceKind(): string { SourceType }

    /** Merging with another declaration keeps this one's fields and ignores `other`. */
    function Incorporate(other: UnpinnedPackage): (r: UnpinnedPackage)
      ensures r.tarball == tarball && r.package == package && r.version == version
    {
      UnpinnedPackage(tarball, package, version)
    }

    /** Pinning copies tarball, package and version into a pinned package. */
    function Resolved(): (p: PinnedPackage)
      ensures p.tarball == tarball && p.package == package && p.version == version
    {
      PinnedPackage(tarball, package, version)
    }
  }

  /** A tarball package after pinning. Its identity is the package name. */
  datatype PinnedPackage = PinnedPackage(tarball: string, package: string, version: Option<string>)
  {
    function Name(): string { package }

    function SourceKind(): string { SourceType }
  }

  /** The `downloads` entry of registry metadata. */
  datatype Downloads = Downloads(tarball: string)

  /** Registry-style metadata synthesised for a tarball package, since no
      metadata service exists for it. */
  datatype RegistryMetadata = RegistryMetadata(name: string, packages: seq<string>, downloads: Downloads)

  /** What the installer computes before handing off to the download step. */
  datatype InstallPlan = InstallPlan(tarName: string, downloadUrl: string, attempts: nat)

  /** Builds the unpinned package from a declaration: the declared name
      becomes `package`; tarball and version are carried over. */
  function FromContract(c: TarballContract): (u: UnpinnedPackage)
    ensures u.tarball == c.tarball && u.package == c.name && u.version == c.version
    ensures u.Name() == c.tarball
  {
    UnpinnedPackage(c.tarball, c.name, c.version)
  }

  /** `get_version`: the stored version, unchanged. */
  function GetVersion(p: PinnedPackage): (v: Option<string>)
    ensures v == p.version
  {
    p.version
  }

  /** Python's `str()` of an optional version: a missing version prints as `None`. */
  function VersionText(v: Option<string>): (t: string)
    ensures v.Some? ==> t == v.value
    ensures v.None? ==> t == "None"
  {
    match v
    case Some(s) => s
    case None => "None"
  }

  /** `nice_version_name`: `version ` followed by the version text. */
  function NiceVersionName(p: PinnedPackage): (r: string)
    ensures r == "version " + VersionText(GetVersion(p))
  {
    "version " + VersionText(p.version)
  }

  /** The metadata name: the package, a dot and the version when the version
      is truthy, else the package alone. */
  function MetadataName(package: string, version: Option<string>): (r: string)
    ensures Truthy(version) ==> |r| == |package| + 1 + |version.value|
    ensures |r| >= |package| && r[..|package|] == package
    ensures Truthy(version) ==> r[|package|] == '.' && r[|package| + 1..] == version.value
    ensures !Truthy(version) ==> r == package
  {
    if Truthy(version) then package + "." + version.value else package
  }

  /** `_fetch_metadata`: the synthesised registry metadata of a pinned package. */
  function FetchMetadata(p: PinnedPackage): (m: RegistryMetadata)
    ensures m.name == MetadataName(p.package, p.version)
    ensures m.packages == []
    ensures m.downloads.tarball == p.tarball
  {
    RegistryMetadata(MetadataName(p.package, p.version), [], Downloads(p.tarball))
  }

  /** The archive file name the installer writes: the version is always
      rendered, so a missing one appears as `None`. */
  function TarName(p: PinnedPackage): (r: string)
    ensures |r| == |p.package| + 1 + |VersionText(p.version)| + 7
    ensures r[..|p.package|] == p.package && r[|p.package|] == '.'
    ensures r[|p.package| + 1..|r| - 7] == VersionText(p.version)
    ensures r[|r| - 7..] == ".tar.gz"
  {
    p.package + "." + VersionText(p.version) + ".tar.gz"
  }

  /** What `install` computes before the retried download-and-untar step:
      the archive name, the URL taken from the synthesised metadata, and the
      attempt budget. */
  function Install(p: PinnedPackage): (plan: InstallPlan)
    ensures plan.downloadUrl == p.tarball
    ensures plan.tarName == TarName(p)
    ensures plan.attempts == 5
  {
    var metadata := FetchMetadata(p);
    InstallPlan(TarName(p), metadata.downloads.tarball, DownloadAttempts)
  }

  /** Identity changes across pinning: before, the tarball reference; after,
      the package name; the source kind is `tarball` on both sides. */
  lemma IdentityAcrossPinning(u: UnpinnedPackage)
    ensures u.Name() == u.tarball
    ensures u.Resolved().Name() == u.package
    ensures u.Name() == u.Resolved().Name() <==> u.tarball == u.package
    ensures u.SourceKind() == u.Resolved().SourceKind() == "tarball"
  {
  }

  /** Merging gives the same package whatever the other declaration is, and
      merging again changes nothing. */
  lemma IncorporateIgnoresOther(a: UnpinnedPackage, b: UnpinnedPackage, c: UnpinnedPackage)
    ensures a.Incorporate(b) == a.Incorporate(c) == a
    ensures a.Incorporate(b).Incorporate(c) == a.Incorporate(b)
    ensures a.Incorporate(a) == a
  {
  }

  /** Pinning is deterministic, and pinning a merge is pinning `self`. */
  lemma ResolvedAfterIncorporate(a: UnpinnedPackage, b: UnpinnedPackage)
    ensures a.Incorporate(b).Resolved() == a.Resolved()
    ensures a.Resolved().tarball == a.tarball && a.Resolved().package == a.package
    ensures GetVersion(a.Resolved()) == a.version
  {
  }

  /** A declaration travels unchanged into the pinned package, and the pinned
      package's identity is the declared name. */
  lemma ContractToPinned(c: TarballContract)
    ensures FromContract(c).Resolved() == PinnedPackage(c.tarball, c.name, c.version)
    ensures FromContract(c).Resolved().Name() == c.name
    ensures Install(FromContract(c).Resolved()).downloadUrl == c.tarball
  {
  }

  /** The archive name agrees with `<metadata name>.tar.gz` exactly when the
      version is truthy: a missing version prints as `None` in the archive
      name but is dropped from the metadata name, and an empty version leaves
      a doubled dot. */
  lemma TarNameMatchesMetadataIffTruthy(p: PinnedPackage)
    ensures TarName(p) == FetchMetadata(p).name + ".tar.gz" <==> Truthy(p.version)
  {
    var m := FetchMetadata(p).name;
    if !Truthy(p.version) {
      assert m == p.package;
      var t := TarName(p);
      if p.version.None? {
        assert |t| == |m| + 1 + 4 + 7;
      } else {
        assert |t| == |m| + 1 + 7;
      }
      assert |t| != |m + ".tar.gz"|;
    }
  }
}
