/**
 * The object constructor as it runs: the fields dictionary is an object the
 * caller owns, the constructor may insert `.KEY` into it in place, and the
 * new object keeps that same dictionary rather than a copy.
 */
module TxfInstances {
  import opened TxfBase
  import opened TxfObjects

  /** A mutable fields dictionary, shared by whoever holds it. */
  class FieldDict {
    var entries: map<string, FieldValue>

    constructor(entries0: map<string, FieldValue>)
      ensures entries == entries0
    {
      entries := entries0;
    }
  }

  /** A constructed object: its attributes, with `flds` the dictionary it was given. */
  class TxfObjectCell {
    var clsCode: string
    var locCode: string
    var key: FieldValue
    var flds: FieldDict
    var coords: seq<(string, string)>
    var title: string
    var sems: map<string, string>

    /** Stores every attribute as given. */
    constructor Store(
      clsCode0: string, locCode0: string, key0: FieldValue, flds0: FieldDict,
      coords0: seq<(string, string)>, title0: string, sems0: map<string, string>)
      ensures clsCode == clsCode0 && locCode == locCode0 && key == key0 && flds == flds0
      ensures coords == coords0 && title == title0 && sems == sems0
    {
      clsCode := clsCode0;
      locCode := locCode0;
      key := key0;
      flds := flds0;
      coords := coords0;
      title := title0;
      sems := sems0;
    }

    /** The object's current value, the fields read through its dictionary. */
    function Value(): TxfObject
      reads this, flds
    {
      TxfObject(clsCode, locCode, key, flds.entries, coords, title, sems)
    }

    /**
     * The constructor: with no key, the key is the `.KEY` entry, and a
     * dictionary without one is a lookup failure that changes nothing; with a
     * key, `.KEY` is inserted into the caller's dictionary only when it is
     * absent. The object's value is then the one `NewTxfObject` describes.
     */
    static method Create(
      clsCode: string, locCode: string, key: Option<FieldValue>, flds: FieldDict,
      coords: seq<(string, string)>, title: string, sems: map<string, string>) returns (r: Result<TxfObjectCell, Failure>)
      modifies flds
      ensures r.Err? <==> key.None? && KeyField !in old(flds.entries)
      ensures r.Err? ==> r.error == MissingKey && flds.entries == old(flds.entries)
      ensures r.Ok? ==> fresh(r.value) && r.value.flds == flds
      ensures r.Ok? ==> ResolveKey(key, old(flds.entries)) == Ok((r.value.key, flds.entries))
      ensures r.Ok? ==> NewTxfObject(clsCode, locCode, key, old(flds.entries), coords, title, sems) == Ok(r.value.Value())
    {
      var k: FieldValue;
      if key.None? {
        if KeyField !in flds.entries {
          return Err(MissingKey);
        }
        k := flds.entries[KeyField];
      } else {
        if KeyField !in flds.entries {
          flds.entries := flds.entries[KeyField := key.value];
        }
        k := key.value;
      }
      var obj := new TxfObjectCell.Store(clsCode, locCode, k, flds, coords, title, sems);
      return Ok(obj);
    }
  }
}
