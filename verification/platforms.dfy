/** The streaming platforms the platform route accepts: the name-to-provider
    map, its inverse, and the list the filter UI offers. */
module Platforms {
  import opened Wrappers

  /** `TMDB_PROVIDER_IDS`. */
  const ProviderIds: map<string, int> := map[
    "Netflix" := 8,
    "Amazon Prime Video" := 10,
    "Hulu" := 15,
    "HBO" := 236,
    "Apple TV+" := 350,
    "Disney+" := 337,
    "Peacock" := 386]

  /** `PROVIDER_TO_NAME`. */
  const ProviderNames: map<int, string> := map[
    8 := "Netflix",
    10 := "Amazon Prime Video",
    15 := "Hulu",
    236 := "HBO",
    350 := "Apple TV+",
    337 := "Disney+",
    386 := "Peacock"]

  /** `MAJOR_PLATFORMS`, in dropdown order. */
  const FilterPlatforms: seq<string> :=
    ["Netflix", "Amazon Prime Video", "HBO", "Hulu", "Apple TV+", "Disney+", "Peacock"]

  /** The provider id of a platform name, or `None` when the name is not one
      of the seven (the route's validity test `TMDB_PROVIDER_IDS[platform]`). */
  function ProviderId(platform: string): (r: Option<int>)
    ensures r.Some? <==> platform in FilterPlatforms
    ensures r.Some? ==> r.value > 0 && r.value in ProviderNames && ProviderNames[r.value] == platform
  {
    if platform in ProviderIds then Some(ProviderIds[platform]) else None
  }

  /** The two maps are inverse bijections over the same seven platforms. */
  lemma {:induction false} ProviderMapsInverse()
    ensures forall p :: p in ProviderIds ==> ProviderIds[p] in ProviderNames && ProviderNames[ProviderIds[p]] == p
    ensures forall n :: n in ProviderNames ==> ProviderNames[n] in ProviderIds && ProviderIds[ProviderNames[n]] == n
  {
  }

  /** Every platform the filter offers is accepted by the route, and every
      accepted platform is offered, each once. */
  lemma {:induction false} FilterPlatformsAccepted()
    ensures forall p :: p in FilterPlatforms <==> p in ProviderIds
    ensures forall i, j :: 0 <= i < j < |FilterPlatforms| ==> FilterPlatforms[i] != FilterPlatforms[j]
  {
  }
}
