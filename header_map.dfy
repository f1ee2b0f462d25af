/**
 * Header dictionary with a named accessor for the "content-type" entry.
 * Keys are compared ordinally, so "Content-Type" is a different entry.
 */
module HeaderMaps {
  import opened Wrappers

  const ContentTypeKey: string := "content-type"

  /** The dictionary indexer's failure on a missing key. */
  datatype Error = KeyNotFound(key: string)

  class HeaderMap {
    var entries: map<string, string>

    constructor ()
      ensures entries == map[]
    {
      entries := map[];
    }

    /** The inherited dictionary indexer `this[key]`: fails when `key` is absent. */
    function Get(key: string): (r: Result<string, Error>)
      reads this
      ensures r.Success? <==> key in entries
      ensures r.Success? ==> r.value == entries[key]
      ensures r.Failure? ==> r.error == KeyNotFound(key)
    {
      if key in entries then Success(entries[key]) else Failure(KeyNotFound(key))
    }

    /** The inherited dictionary indexer `this[key] = value`: adds or overwrites. */
    method Set(key: string, value: string)
      modifies this
      ensures entries == old(entries)[key := value]
    {
      entries := entries[key := value];
    }

    /** The `ContentType` getter: the "content-type" entry, failing when it is absent. */
    function ContentType(): (r: Result<string, Error>)
      reads this
      ensures r == Get(ContentTypeKey)
      ensures r.Success? <==> ContentTypeKey in entries
      ensures r.Failure? ==> r.error == KeyNotFound("content-type")
    {
      Get(ContentTypeKey)
    }

    /** The `ContentType` setter: writes the "content-type" entry and nothing else. */
    method SetContentType(value: string)
      modifies this
      ensures entries == old(entries)[ContentTypeKey := value]
      ensures ContentType() == Success(value)
      ensures forall k :: k != ContentTypeKey ==> Get(k) == old(Get(k))
    {
      Set(ContentTypeKey, value);
    }
  }

  /**
   * Setting the content type and reading it back gives the value set; the
   * capitalised spelling "Content-Type" is a separate header that the
   * accessor never sees.
   */
  method ContentTypeRoundTrip(value: string, other: string) returns (read: Result<string, Error>, capitalised: Result<string, Error>)
    ensures read == Success(value)
    ensures capitalised == Failure(KeyNotFound("content-type"))
  {
    var headers := new HeaderMap();
    headers.SetContentType(value);
    read := headers.ContentType();
    var others := new HeaderMap();
    others.Set("Content-Type", other);
    capitalised := others.ContentType();
  }
}
