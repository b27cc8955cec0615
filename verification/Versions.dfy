/** Kubernetes version strings as the upgrade planner reads them.

    Parsing itself is not part of this model. A string is either unreadable to
    parseStableKubernetesVersion's parser, or it spells one version; `spelling` tells apart
    the strings that spell the same version ("1.31.0", "v1.31.0", "1.31"), and the empty
    spelling is the one semver's String() prints. Strings with a pre-release or build part
    are among the unreadable ones, because the planner refuses them. */
module Versions {
  import opened Sequences

  datatype Version = Version(major: nat, minor: nat, patch: nat)

  datatype VersionText = Unreadable(raw: string) | Spelled(spelling: string, version: Version)

  function Print(v: Version): VersionText { Spelled("", v) }

  /** parseStableKubernetesVersion: only major version 1 is supported. */
  function ParseStable(t: VersionText): Option<Version> {
    if t.Spelled? && t.version.major == 1 then Some(t.version) else None
  }

  /** normalizeKubernetesVersion. */
  function Normalize(t: VersionText): VersionText {
    match ParseStable(t)
    case Some(v) => Print(v)
    case None => Unreadable("")
  }

  /** Precedence, item 11 of Semantic Versioning 2.0.0, without pre-release parts. */
  predicate Before(a: Version, b: Version) {
    a.major < b.major ||
    (a.major == b.major && (a.minor < b.minor || (a.minor == b.minor && a.patch < b.patch)))
  }

  ghost predicate IsLeast(v: Version, vs: seq<Version>) {
    v in vs && forall w :: w in vs ==> !Before(w, v)
  }

  lemma LeastUnique(v: Version, w: Version, vs: seq<Version>, ws: seq<Version>)
    requires IsLeast(v, vs) && IsLeast(w, ws)
    requires forall x :: x in vs <==> x in ws
    ensures v == w
  {
  }
}
