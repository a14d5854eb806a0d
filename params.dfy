/** Process-wide configuration of the timestamp-partitioned index: the default
    graph build parameters, the default query parameters, the width below which
    a range query falls back to the exhaustive index, and the minimum subset size
    that decides whether a node splits.  Every build and query reads them at the
    moment it runs. */
module Params {

  /** 2^64: `size_t` arithmetic wraps modulo this value. */
  const SizeModulus: nat := 0x1_0000_0000_0000_0000

  type SizeT = x: nat | x < SizeModulus

  /** Graph build parameters, in the positional order in which
      `set_default_build_params` passes them to the constructor: (R, L, alpha).
      How the constructor maps its positions to the engine's fields is not part
      of this model. */
  datatype BuildParams = BuildParams(r: int, l: int, alpha: real)

  /** Beam-search parameters: k, beam size, cut, candidate limit, degree limit. */
  datatype QueryParams = QueryParams(k: int, beamSize: int, cut: real, limit: int, degreeLimit: int)

  const DefaultBuildParams: BuildParams := BuildParams(500, 64, 1.175)
  const DefaultQueryParams: QueryParams := QueryParams(100, 500, 1.35, 10000000, 100)
  const DefaultExhaustiveFallbackCutoff: real := 0.25
  const DefaultMinSize: SizeT := 10000

  /** The four globals, as one object whose setters replace one field each. */
  class Config {
    var buildParams: BuildParams
    var queryParams: QueryParams
    var exhaustiveFallbackCutoff: real
    var minSize: SizeT

    constructor ()
      ensures buildParams == DefaultBuildParams && queryParams == DefaultQueryParams
      ensures exhaustiveFallbackCutoff == DefaultExhaustiveFallbackCutoff && minSize == DefaultMinSize
    {
      buildParams := DefaultBuildParams;
      queryParams := DefaultQueryParams;
      exhaustiveFallbackCutoff := DefaultExhaustiveFallbackCutoff;
      minSize := DefaultMinSize;
    }

    method SetDefaultBuildParams(r: int, l: int, alpha: real)
      modifies this
      ensures buildParams == BuildParams(r, l, alpha)
      ensures queryParams == old(queryParams)
      ensures exhaustiveFallbackCutoff == old(exhaustiveFallbackCutoff) && minSize == old(minSize)
    {
      buildParams := BuildParams(r, l, alpha);
    }

    method SetDefaultQueryParams(k: int, beamSize: int, cut: real, limit: int, degreeLimit: int)
      modifies this
      ensures queryParams == QueryParams(k, beamSize, cut, limit, degreeLimit)
      ensures buildParams == old(buildParams)
      ensures exhaustiveFallbackCutoff == old(exhaustiveFallbackCutoff) && minSize == old(minSize)
    {
      queryParams := QueryParams(k, beamSize, cut, limit, degreeLimit);
    }

    method SetExhaustiveFallbackCutoff(cutoff: real)
      modifies this
      ensures exhaustiveFallbackCutoff == cutoff
      ensures buildParams == old(buildParams) && queryParams == old(queryParams) && minSize == old(minSize)
    {
      exhaustiveFallbackCutoff := cutoff;
    }

    method SetMinSize(size: SizeT)
      modifies this
      ensures minSize == size
      ensures buildParams == old(buildParams) && queryParams == old(queryParams)
      ensures exhaustiveFallbackCutoff == old(exhaustiveFallbackCutoff)
    {
      minSize := size;
    }
  }
}
