/**
 * The logging framework's mapped diagnostic context of one thread: a
 * string-to-string map that filters fill and empty around a request.
 */
module DiagnosticContext {
  import opened Wrappers

  class Mdc {
    var entries: map<string, string>

    constructor ()
      ensures entries == map[]
    {
      entries := map[];
    }

    /** MDC.get. */
    function Get(key: string): (r: Option<string>)
      reads this
      ensures r.Some? <==> key in entries
      ensures r.Some? ==> r.value == entries[key]
    {
      if key in entries then Some(entries[key]) else None
    }

    /**
     * MDC.getCopyOfContextMap: null for a thread that holds no entries,
     * otherwise a copy of the map.
     */
    function CopyOfContextMap(): (r: Option<map<string, string>>)
      reads this
      ensures r.None? <==> entries == map[]
      ensures r.Some? ==> r.value == entries
    {
      if entries == map[] then None else Some(entries)
    }

    /** MDC.put. */
    method Put(key: string, value: string)
      modifies this
      ensures entries == old(entries)[key := value]
    {
      entries := entries[key := value];
    }

    /** MDC.remove. */
    method Remove(key: string)
      modifies this
      ensures entries == old(entries) - {key}
    {
      entries := entries - {key};
    }

    /** MDC.setContextMap: replaces every entry. */
    method SetContextMap(m: map<string, string>)
      modifies this
      ensures entries == m
    {
      entries := m;
    }

    /** MDC.clear. */
    method Clear()
      modifies this
      ensures entries == map[]
    {
      entries := map[];
    }
  }
}
