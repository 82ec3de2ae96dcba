/** The product post-meta the plugin reads: `_is_hourly_rate` ('yes' or 'no')
    and `_hourly_rate` (the rate as the admin typed it), per product id. */
module PostMeta {
  import opened PhpNumbers

  type Meta = map<int, map<string, string>>

  /** get_post_meta($id, $key, true): the stored string, or '' when there is none. */
  function GetPostMeta(meta: Meta, id: int, key: string): (v: string)
    ensures id in meta && key in meta[id] ==> v == meta[id][key]
    ensures v != "" ==> id in meta && key in meta[id]
  {
    if id in meta && key in meta[id] then meta[id][key] else ""
  }

  /** `_is_hourly_rate === 'yes'`. */
  predicate IsHourly(meta: Meta, id: int)
    ensures IsHourly(meta, id) ==> id in meta && "_is_hourly_rate" in meta[id]
  {
    GetPostMeta(meta, id, "_is_hourly_rate") == "yes"
  }

  /** The `_hourly_rate` meta; a true rate is always a stored one. */
  function HourlyRate(meta: Meta, id: int): (rate: string)
    ensures Truthy(rate) ==> id in meta && "_hourly_rate" in meta[id]
  {
    GetPostMeta(meta, id, "_hourly_rate")
  }

  /** An hourly product whose rate is a true string: the test the price filters make. */
  predicate HourlyPriced(meta: Meta, id: int)
    ensures HourlyPriced(meta, id) ==> id in meta && "_is_hourly_rate" in meta[id] && "_hourly_rate" in meta[id]
  {
    IsHourly(meta, id) && Truthy(HourlyRate(meta, id))
  }
}
