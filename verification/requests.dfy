/** The query side of a fetch: the endpoint an adapter calls and the query
    parameters it sends, after the caller's extra settings are merged in. */
module Requests {
  import opened Values

  /** The provider endpoints. The SILO base URLs live in a settings file
      that is not part of this model, so endpoints are named, not spelled. */
  datatype Endpoint =
    | OpenMeteoArchive
    | OpenMeteoClimate
    | PowerHourlyPoint
    | SiloDataDrill
    | SiloPatchPoint

  type Params = map<string, Value>

  /** One GET request. */
  datatype Query = Query(endpoint: Endpoint, params: Params)

  /** The extra settings a caller passed; none behaves as an empty dict. */
  function Overrides(settings: Option<Params>): Params
  {
    if settings.Some? then settings.value else map[]
  }

  /** The dict display {keys[0]: vals[0], keys[1]: vals[1], ...}. */
  function Display(keys: seq<string>, vals: seq<Value>): (p: Params)
    requires |keys| == |vals| && Distinct(keys)
    ensures forall k :: k in p <==> k in keys
    ensures forall i :: 0 <= i < |keys| ==> p[keys[i]] == vals[i]
  {
    map i | 0 <= i < |keys| :: keys[i] := vals[i]
  }

  /** `if request_settings: payload = {**payload, **request_settings}`:
      every key of either dict is sent, and the caller's value wins. */
  function Merge(payload: Params, settings: Option<Params>): (r: Params)
    ensures r.Keys == payload.Keys + Overrides(settings).Keys
    ensures forall k :: k in Overrides(settings) ==> r[k] == Overrides(settings)[k]
    ensures forall k :: k in payload && k !in Overrides(settings) ==> r[k] == payload[k]
  {
    if settings.Some? && |settings.value| > 0 then payload + settings.value else payload
  }

  /** Python's truth test on the settings changes nothing: merging is the
      right-biased union with the settings, empty or absent ones included. */
  lemma MergeIsUnion(payload: Params, settings: Option<Params>)
    ensures Merge(payload, settings) == payload + Overrides(settings)
  {
  }

  /** Key k goes out with value v, unless the caller's settings name k, in
      which case the caller's value goes out instead. */
  ghost predicate Sends(params: Params, settings: Option<Params>, k: string, v: Value)
  {
    k in params && params[k] == (if k in Overrides(settings) then Overrides(settings)[k] else v)
  }

  /** Every key of the built-in payload is sent, with the payload's value
      unless the caller overrides it. */
  lemma MergeSends(payload: Params, settings: Option<Params>, k: string)
    requires k in payload
    ensures Sends(Merge(payload, settings), settings, k, payload[k])
  {
  }

  /** The i-th entry of a payload display goes out, with its value unless
      the caller overrides it. */
  lemma DisplaySends(keys: seq<string>, vals: seq<Value>, settings: Option<Params>, i: nat)
    requires |keys| == |vals| && Distinct(keys) && i < |keys|
    ensures Sends(Merge(Display(keys, vals), settings), settings, keys[i], vals[i])
  {
    MergeSends(Display(keys, vals), settings, keys[i]);
  }
}
