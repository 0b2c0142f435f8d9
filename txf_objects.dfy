/**
 * The records a parse produces: a geographic object and the whole file, and
 * the object constructor's rule for the reserved `.KEY` field.
 */
module TxfObjects {
  import opened TxfBase

  /**
   * A field's value. The parser stores text, but when the constructor is
   * given a key and the fields lack `.KEY`, it stores that key itself.
   */
  datatype FieldValue = Text(text: string) | Number(number: int)

  const KeyField := ".KEY"

  /** One geographic object. `coords` are raw (x, y) tokens in file order. */
  datatype TxfObject = TxfObject(
    clsCode: string,
    locCode: string,
    key: FieldValue,
    flds: map<string, FieldValue>,
    coords: seq<(string, string)>,
    title: string,
    sems: map<string, string>)

  /** The parsed file: header magic and version, passport, objects in file order. */
  datatype TxfFile = TxfFile(
    magic: string,
    version: string,
    passport: map<string, string>,
    objs: seq<TxfObject>)

  /**
   * The key rule of the object constructor: with no key, the key is read
   * from `.KEY` (a lookup failure when it is missing); with a key, `.KEY` is
   * added only when the fields lack it. Yields the key and the fields the
   * object keeps; since the object keeps the caller's own dictionary, these
   * are also the caller's fields after the call.
   */
  function ResolveKey(key: Option<FieldValue>, flds: map<string, FieldValue>): (r: Result<(FieldValue, map<string, FieldValue>), Failure>)
    ensures r.Ok? <==> key.Some? || KeyField in flds
    ensures r.Err? ==> r.error == MissingKey
    ensures r.Ok? ==> KeyField in r.value.1
    ensures key.None? && r.Ok? ==> r.value.0 == flds[KeyField] && r.value.1 == flds
    ensures key.Some? ==> r.Ok? && r.value.0 == key.value
    ensures key.Some? && KeyField !in flds ==>
      && r.value.1.Keys == flds.Keys + {KeyField}
      && r.value.1[KeyField] == key.value
      && (forall f :: f in flds ==> r.value.1[f] == flds[f])
    ensures key.Some? && KeyField in flds ==> r.value.1 == flds
  {
    match key
    case None => if KeyField in flds then Ok((flds[KeyField], flds)) else Err(MissingKey)
    case Some(k) => if KeyField in flds then Ok((k, flds)) else Ok((k, flds[KeyField := k]))
  }

  /**
   * The object constructor: the codes, coordinates, title and semantics are
   * stored as passed, the key and fields as `ResolveKey` decides.
   */
  function NewTxfObject(
    clsCode: string, locCode: string, key: Option<FieldValue>, flds: map<string, FieldValue>,
    coords: seq<(string, string)>, title: string, sems: map<string, string>): (r: Result<TxfObject, Failure>)
    ensures r.Ok? <==> key.Some? || KeyField in flds
    ensures r.Err? ==> r.error == MissingKey
    ensures r.Ok? ==>
      && r.value.clsCode == clsCode && r.value.locCode == locCode
      && r.value.coords == coords && r.value.title == title && r.value.sems == sems
      && KeyField in r.value.flds
      && (key.Some? ==> r.value.key == key.value)
      && (key.None? ==> r.value.key == flds[KeyField])
      && (forall f :: f in flds ==> f in r.value.flds && (f != KeyField ==> r.value.flds[f] == flds[f]))
      && r.value.flds.Keys == flds.Keys + {KeyField}
    ensures r.Ok? && KeyField in flds ==> r.value.flds == flds && r.value.flds[KeyField] == flds[KeyField]
    ensures r.Ok? && KeyField !in flds ==> key.Some? && r.value.flds == flds[KeyField := key.value]
    ensures r.Ok? ==> ResolveKey(key, flds) == Ok((r.value.key, r.value.flds))
  {
    match ResolveKey(key, flds)
    case Err(e) => Err(e)
    case Ok(kf) => Ok(TxfObject(clsCode, locCode, kf.0, kf.1, coords, title, sems))
  }

  /** Resolving twice changes nothing more: the fields after one call already hold `.KEY`. */
  lemma ResolveKeyIdempotent(key: Option<FieldValue>, flds: map<string, FieldValue>)
    requires ResolveKey(key, flds).Ok?
    ensures var (k, f) := ResolveKey(key, flds).value; ResolveKey(Some(k), f) == Ok((k, f)) && ResolveKey(None, f).Ok?
  {
  }
}
