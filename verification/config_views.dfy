/**
 * The two base views' response wrapping: the viewset base recognises an
 * envelope and leaves it alone, the plain view base wraps whatever has a body.
 */
module ConfigViews {
  import opened Wrappers
  import opened ConfigUtils

  /** A body that is an object already holding the four envelope keys. */
  predicate IsStandard(r: Response) {
    r.data.Some? && r.data.value.JObject? && EnvelopeKeys <= r.data.value.fields.Keys
  }

  /** What `standard_response` produces is recognised as an envelope. */
  lemma EnvelopeRecognised(data: Json, statusCode: int, error: Option<seq<string>>)
    ensures IsStandard(StandardResponse(data, statusCode, error))
  {
  }

  /**
   * `_standardize_response` (the same on both bases): an envelope is kept;
   * anything else is wrapped with its body, or `{}` without one, and its status.
   */
  function StandardizeResponse(r: Response): (out: Response)
    ensures IsStandard(out) && out.statusCode == r.statusCode
    ensures IsStandard(r) ==> out == r
    ensures !IsStandard(r) && r.data.Some? && r.data.value != JNull ==> out.data.value.fields["data"] == r.data.value
    ensures !IsStandard(r) && (r.data.None? || r.data.value == JNull) ==> out.data.value.fields["data"] == JObject(map[])
    ensures !IsStandard(r) ==> out.data.value.fields["error"] == JList([])
  {
    if IsStandard(r) then r
    else StandardResponse(r.data.GetOr(JObject(map[])), r.statusCode, None)
  }

  /** `StandardResponseViewSet.finalize_response`: never wraps an envelope a second time. */
  function ViewSetFinalize(r: Response): (out: Response)
    ensures out.statusCode == r.statusCode
    ensures IsStandard(r) || r.data.None? ==> out == r
    ensures r.data.Some? ==> IsStandard(out)
    ensures !IsStandard(r) && r.data.Some? ==> out == StandardResponse(r.data.value, r.statusCode, None)
  {
    if IsStandard(r) then r
    else if r.data.Some? then StandardResponse(r.data.value, r.statusCode, None)
    else r
  }

  /** Finalizing twice on the viewset base is finalizing once. */
  lemma ViewSetFinalizeIdempotent(r: Response)
    ensures ViewSetFinalize(ViewSetFinalize(r)) == ViewSetFinalize(r)
  {
  }

  /** `StandardAPIView.finalize_response`: wraps every response with a body, envelope or not. */
  function ApiViewFinalize(r: Response): (out: Response)
    ensures out.statusCode == r.statusCode
    ensures r.data.None? ==> out == r
    ensures r.data.Some? ==> IsStandard(out)
    ensures r.data.Some? && r.data.value != JNull ==> out.data.value.fields["data"] == r.data.value
  {
    if r.data.Some? then StandardResponse(r.data.value, r.statusCode, None) else r
  }

  /**
   * On the plain view base an envelope is wrapped again: finalizing twice
   * nests the first envelope as the body of the second.
   */
  lemma ApiViewFinalizeNests(r: Response)
    requires r.data.Some?
    ensures ApiViewFinalize(ApiViewFinalize(r)).data.value.fields["data"] == ApiViewFinalize(r).data.value
    ensures ApiViewFinalize(ApiViewFinalize(r)) != ApiViewFinalize(r)
  {
    var once := ApiViewFinalize(r);
    assert once.data.value != JNull;
  }
}
