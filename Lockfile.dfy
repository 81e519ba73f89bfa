/** The parsed shapes of an npm `package-lock.json`, as the prefetcher
    deserialises them. */
module Lockfile {
  import opened Wrappers
  import Urls

  /** `lockfileVersion` is read as an unsigned byte. */
  newtype u8 = x: int | 0 <= x < 256

  /** A field that is a URL when it parses as one and free text otherwise. */
  datatype UrlOrString = Url(url: Urls.Url) | String(text: string)

  /** `Display for UrlOrString`: the URL's serialisation, or the text itself. */
  function Display(v: UrlOrString): (r: string)
    ensures v.String? ==> r == v.text
    ensures v.Url? ==> r == Urls.Serialize(v.url)
  {
    match v
    case Url(u) => Urls.Serialize(u)
    case String(s) => s
  }

  /** An entry of the flat `packages` map of lockfile versions 2 and 3. */
  datatype Package = Package(resolved: Option<UrlOrString>, integrity: Option<string>)

  /** A node of the nested `dependencies` tree of lockfile version 1. An absent
      `dependencies` field is the empty map: the flattening treats both alike. */
  datatype OldPackage = OldPackage(
    version: UrlOrString,
    resolved: Option<UrlOrString>,
    integrity: Option<string>,
    dependencies: map<string, OldPackage>)

  datatype PackageLock = PackageLock(
    version: u8,
    dependencies: Option<map<string, OldPackage>>,
    packages: Option<map<string, Package>>)
}
