/** The framework's per-resource state handle (the SDK's schema.ResourceData),
    reduced to what the modelled code uses: the resource id and a map from
    field name to string value. */
module ResourceState {
  import opened Types

  class ResourceData {
    var id: GoString
    var values: map<string, GoString>

    constructor (id0: GoString, values0: map<string, GoString>)
      ensures id == id0 && values == values0
    {
      id := id0;
      values := values0;
    }

    /** d.Get(key).(string): a string field that was never set reads as "". */
    function Get(key: string): GoString
      reads this
    {
      if key in values then values[key] else []
    }

    /** d.SetId */
    method SetId(v: GoString)
      modifies this
      ensures id == v && values == old(values)
    {
      id := v;
    }

    /** d.Set for a string field. */
    method Set(key: string, v: GoString)
      modifies this
      ensures values == old(values)[key := v] && id == old(id)
    {
      values := values[key := v];
    }
  }
}
