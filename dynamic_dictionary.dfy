/**
 * The dynamic parameter bag: member names are keys of an inner dictionary;
 * setting a member always succeeds and overwrites, getting one succeeds only
 * when it was set.
 */
module DynamicDictionaries {
  import opened Wrappers

  class DynamicDictionary<V> {
    var dict: map<string, V>

    constructor ()
      ensures dict == map[]
    {
      dict := map[];
    }

    /** `TryGetMember`: reports whether `name` is set and, if so, its value. */
    method TryGetMember(name: string) returns (found: bool, result: Option<V>)
      ensures found <==> name in dict
      ensures found ==> result == Some(dict[name])
      ensures !found ==> result == None
    {
      if name in dict {
        found, result := true, Some(dict[name]);
      } else {
        found, result := false, None;
      }
    }

    /** `TrySetMember`: stores `value` under `name`, replacing any earlier value. */
    method TrySetMember(name: string, value: V) returns (ok: bool)
      modifies this
      ensures ok
      ensures dict == old(dict)[name := value]
      ensures name in dict && dict[name] == value
      ensures forall k :: k != name ==> (k in dict <==> k in old(dict))
      ensures forall k :: k != name && k in old(dict) ==> dict[k] == old(dict)[k]
    {
      dict := dict[name := value];
      ok := true;
    }
  }

  /** The values a dynamic member can hold in the unit test: text or an integer. */
  datatype Dynamic = Text(text: string) | Number(number: int)

  /**
   * The dictionary unit test: set `myname` to "chan" and read it back; set
   * `i` to 1, increment it through a get and a set, and read back 2.
   */
  method AddValue() returns (myname: Option<Dynamic>, i: Option<Dynamic>)
    ensures myname == Some(Text("chan"))
    ensures i == Some(Number(2))
  {
    var dict := new DynamicDictionary<Dynamic>();
    var ok := dict.TrySetMember("myname", Text("chan"));
    var found;
    found, myname := dict.TryGetMember("myname");
    ok := dict.TrySetMember("i", Number(1));
    var current;
    found, current := dict.TryGetMember("i");
    ok := dict.TrySetMember("i", Number(current.value.number + 1));
    found, i := dict.TryGetMember("i");
  }

  /** A member that was never set cannot be read from a new dictionary. */
  method GetUnset(name: string) returns (found: bool, result: Option<Dynamic>)
    ensures !found && result == None
  {
    var dict := new DynamicDictionary<Dynamic>();
    found, result := dict.TryGetMember(name);
  }
}
