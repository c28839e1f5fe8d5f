/** The server's settings: built-in defaults, a structural deep copy, and the shallow overlay of
    a parsed settings document on a copy of the defaults. */
module Settings {
  import opened Wrappers
  import opened JsValues

  function TlsPair(): Value {
    Obj([Property("key", Str("localhost.key")), Property("cert", Str("localhost.cert"))])
  }

  /** `DefaultSettings`: two sections, `http` and `roomManager`, each with a port and a TLS
      key/certificate pair. */
  function DefaultSettings(): (r: Value)
    ensures r.Obj? && UniqueKeys(r.props)
    ensures forall section :: Lookup(r.props, section).Some? <==> section == "http" || section == "roomManager"
  {
    Obj([
      Property("http", Obj([Property("port", Num(3000)), Property("tls", TlsPair())])),
      Property("roomManager", Obj([Property("port", Num(3001)), Property("tls", TlsPair())]))
    ])
  }

  /** `copy`: arrays element by element, objects property by property, everything else
      (null, undefined, booleans, numbers, strings) as it is. The result equals the input. */
  function Copy(v: Value): (r: Value)
    ensures r == v
  {
    match v
    case Arr(items) =>
      var copied := seq(|items|, i requires 0 <= i < |items| => Copy(items[i]));
      assert copied == items;
      Arr(copied)
    case Obj(props) =>
      var copied := seq(|props|, i requires 0 <= i < |props| => Property(props[i].key, Copy(props[i].val)));
      assert copied == props;
      Obj(copied)
    case _ => v
  }

  /** A top-level section as a shallow overlay of `doc` on the defaults leaves it: the document's
      value when the document has the key (the last occurrence, as spread assigns in order),
      otherwise the default section. */
  function OverlaidSection(doc: Value, section: string): Option<Value> {
    if LastValue(OwnEnumerable(doc), section).Some? then LastValue(OwnEnumerable(doc), section)
    else Lookup(DefaultSettings().props, section)
  }

  /** `{...copy(DefaultSettings), ...doc}`: the defaults' sections, then the document's own
      properties assigned over them one by one. The merge is shallow: a section the document
      names is replaced whole by the document's (its last occurrence), and every other section
      keeps its default. */
  function Merge(doc: Value): (r: Value)
    ensures r.Obj?
    ensures forall section :: Lookup(r.props, section) == OverlaidSection(doc, section)
  {
    var defaults := DefaultSettings().props;
    var base := Assign([], OwnEnumerable(Copy(DefaultSettings())));
    assert base == Assign([], defaults);
    var merged := Assign(base, OwnEnumerable(doc));
    assert forall section :: Lookup(merged, section) == OverlaidSection(doc, section) by {
      forall section ensures Lookup(merged, section) == OverlaidSection(doc, section) {
        LookupAssign(base, OwnEnumerable(doc), section);
        LookupAssign([], defaults, section);
        LastIsFirstWhenUnique(defaults, section);
      }
    }
    Obj(merged)
  }

  /** Merging an empty document gives exactly the defaults. */
  lemma MergeEmpty()
    ensures Merge(Obj([])) == DefaultSettings()
  {
    AssignFresh([], DefaultSettings().props);
  }

  /** A document whose `http` section has no `tls` yields settings whose `http` is exactly that
      section, so without TLS: the default TLS pair does not survive. */
  lemma HttpSectionWithoutTls(doc: Value, http: seq<Property>)
    requires LastValue(OwnEnumerable(doc), "http") == Some(Obj(http))
    requires forall i :: 0 <= i < |http| ==> http[i].key != "tls"
    ensures Get(Merge(doc), "http") == Ok(Obj(http))
    ensures Get(Get(Merge(doc), "http").value, "tls") == Ok(Undefined)
  {
  }

  /** What reading and parsing the settings file produced: a document, or an error with its
      `code` (absent for errors that carry none). */
  datatype ReadOutcome = Parsed(doc: Value) | Failed(code: Option<string>)

  /** The settings `from` resolves to, and whether it then writes them out as a new file. */
  datatype Loaded = Loaded(settings: Value, writeBack: bool)

  /** `from` without its I/O: a missing file (ENOENT) counts as an empty document and asks for
      the file to be created when `create` is set; any other error is re-raised unchanged. */
  function From(read: ReadOutcome, create: bool): (r: Result<Loaded, Option<string>>)
    ensures r.Err? <==> read.Failed? && read.code != Some("ENOENT")
    ensures r.Err? ==> r.error == read.code
    ensures read == Failed(Some("ENOENT")) ==> r == Ok(Loaded(DefaultSettings(), create))
    ensures read.Parsed? ==> r == Ok(Loaded(Merge(read.doc), false))
  {
    match read
    case Parsed(doc) => Ok(Loaded(Merge(doc), false))
    case Failed(code) =>
      if code == Some("ENOENT") then
        MergeEmpty();
        Ok(Loaded(Merge(Obj([])), create))
      else Err(code)
  }

  /** The defaults' constants. */
  lemma DefaultValues()
    ensures Get(DefaultSettings(), "http") == Ok(Obj([Property("port", Num(3000)), Property("tls", TlsPair())]))
    ensures Get(DefaultSettings(), "roomManager") == Ok(Obj([Property("port", Num(3001)), Property("tls", TlsPair())]))
    ensures Get(TlsPair(), "key") == Ok(Str("localhost.key")) && Get(TlsPair(), "cert") == Ok(Str("localhost.cert"))
  {
  }
}
