/**
  Marker-size resolution: the `marker_map` parameter is a JSON object text whose
  keys are marker IDs written as strings and whose values are side lengths in
  meters; `get_marker_size` looks an ID up there and falls back to the global
  `marker_size` parameter.
 */
module MarkerSizes {
  import opened Wrappers
  import opened PyInt

  /**
    What `json.loads` made of the parameter text. The JSON parser itself is not
    modelled: `Object` carries the decoded dictionary's `items()` in order.
   */
  datatype JsonDoc =
    | DecodeError                          // `json.JSONDecodeError`
    | NotAnObject                          // valid JSON that is not an object
    | Object(entries: seq<(string, real)>)

  /** Exceptions the construction code does not catch; each aborts node start-up. */
  datatype StartupError =
    | ItemsMissing           // `.items()` on a decoded value that is not a dictionary
    | BadKey(key: string)    // `int(k)` raised `ValueError`

  /** The per-ID overrides plus the global default. */
  datatype SizeTable = SizeTable(defaultSize: real, overrides: map<int, real>)

  /** `get_marker_size`: the override for `id` if there is one, else the default. */
  function GetMarkerSize(t: SizeTable, id: int): (size: real)
    ensures id in t.overrides ==> size == t.overrides[id]
    ensures id !in t.overrides ==> size == t.defaultSize
  {
    if id in t.overrides then t.overrides[id] else t.defaultSize
  }

  // The comprehension below is stated for any key conversion `toId`; the node
  // uses Python's `int`, `PyInt.ParseInt`.

  /** Entry `i` is the last one whose key `toId` reads as `id`. */
  ghost predicate LastFor(toId: string -> Option<int>, entries: seq<(string, real)>, i: int, id: int) {
    && 0 <= i < |entries|
    && toId(entries[i].0) == Some(id)
    && forall j :: i < j < |entries| ==> toId(entries[j].0) != Some(id)
  }

  /** Some entry's key is read by `toId` as `id`. */
  ghost predicate Mentions(toId: string -> Option<int>, entries: seq<(string, real)>, id: int) {
    exists i :: 0 <= i < |entries| && toId(entries[i].0) == Some(id)
  }

  /** Entry `i` is the first one whose key `toId` rejects. */
  ghost predicate FirstBadKey(toId: string -> Option<int>, entries: seq<(string, real)>, i: int) {
    && 0 <= i < |entries|
    && toId(entries[i].0).None?
    && forall j :: 0 <= j < i ==> toId(entries[j].0).Some?
  }

  /**
    The dictionary comprehension `{int(k): v for k, v in items}`: keys are
    converted left to right, a later entry overwrites an earlier one with the
    same integer key, and the first key `int` rejects aborts the whole build.
   */
  function ConvertKeys(toId: string -> Option<int>, entries: seq<(string, real)>): (r: Result<map<int, real>, StartupError>)
    ensures r.Ok? ==> |r.value| <= |entries|
    ensures r.Err? ==> r.error.BadKey?
    decreases |entries|
  {
    if |entries| == 0 then Ok(map[])
    else
      var init := entries[..|entries| - 1];
      var (key, size) := entries[|entries| - 1];
      match ConvertKeys(toId, init)
      case Err(e) => Err(e)
      case Ok(m) =>
        match toId(key)
        case None => Err(BadKey(key))
        case Some(id) => Ok(m[id := size])
  }

  /** The build succeeds exactly when `int` accepts every key. */
  lemma {:induction false} ConvertKeysOk(toId: string -> Option<int>, entries: seq<(string, real)>)
    ensures ConvertKeys(toId, entries).Ok? <==> forall i :: 0 <= i < |entries| ==> toId(entries[i].0).Some?
    decreases |entries|
  {
    if |entries| > 0 {
      var init := entries[..|entries| - 1];
      ConvertKeysOk(toId, init);
      assert forall i :: 0 <= i < |init| ==> init[i] == entries[i];
    }
  }

  /** A failed build reports the first key, in item order, that `int` rejects. */
  lemma {:induction false} ConvertKeysError(toId: string -> Option<int>, entries: seq<(string, real)>)
    requires ConvertKeys(toId, entries).Err?
    ensures exists i :: FirstBadKey(toId, entries, i) && ConvertKeys(toId, entries).error == BadKey(entries[i].0)
    decreases |entries|
  {
    var n := |entries|;
    var init := entries[..n - 1];
    assert forall i :: 0 <= i < |init| ==> init[i] == entries[i];
    if ConvertKeys(toId, init).Err? {
      ConvertKeysError(toId, init);
      var i :| FirstBadKey(toId, init, i) && ConvertKeys(toId, init).error == BadKey(init[i].0);
      assert FirstBadKey(toId, entries, i);
    } else {
      ConvertKeysOk(toId, init);
      assert FirstBadKey(toId, entries, n - 1);
    }
  }

  /** A built map has a key for exactly the IDs the entries name. */
  lemma {:induction false} ConvertKeysDomain(toId: string -> Option<int>, entries: seq<(string, real)>, id: int)
    requires ConvertKeys(toId, entries).Ok?
    ensures id in ConvertKeys(toId, entries).value <==> Mentions(toId, entries, id)
    decreases |entries|
  {
    if |entries| > 0 {
      var n := |entries|;
      var init := entries[..n - 1];
      assert forall i :: 0 <= i < |init| ==> init[i] == entries[i];
      ConvertKeysDomain(toId, init, id);
      if Mentions(toId, init, id) {
        var i :| 0 <= i < |init| && toId(init[i].0) == Some(id);
        assert toId(entries[i].0) == Some(id);
      }
      if Mentions(toId, entries, id) && toId(entries[n - 1].0) != Some(id) {
        var i :| 0 <= i < n && toId(entries[i].0) == Some(id);
        assert toId(init[i].0) == Some(id);
      }
    }
  }

  /** For a repeated integer key the value of the last entry wins. */
  lemma {:induction false} ConvertKeysLastWins(toId: string -> Option<int>, entries: seq<(string, real)>, i: int, id: int)
    requires ConvertKeys(toId, entries).Ok?
    requires LastFor(toId, entries, i, id)
    ensures id in ConvertKeys(toId, entries).value && ConvertKeys(toId, entries).value[id] == entries[i].1
    decreases |entries|
  {
    var n := |entries|;
    var init := entries[..n - 1];
    if i < n - 1 {
      assert forall j :: 0 <= j < |init| ==> init[j] == entries[j];
      assert LastFor(toId, init, i, id);
      ConvertKeysLastWins(toId, init, i, id);
    }
  }

  /**
    Lines 117-126 of the node's constructor: a decode failure is caught and
    yields the empty map; every other failure propagates.
   */
  function BuildMarkerMap(doc: JsonDoc): (r: Result<map<int, real>, StartupError>)
    ensures r.Ok? && doc.DecodeError? ==> r.value == map[]
    ensures r.Ok? <==> doc.DecodeError? || (doc.Object? && forall i :: 0 <= i < |doc.entries| ==> ParseInt(doc.entries[i].0).Some?)
    ensures r.Err? && doc.Object? ==> r.error.BadKey?
  {
    match doc
    case DecodeError => Ok(map[])
    case NotAnObject => Err(ItemsMissing)
    case Object(entries) =>
      ConvertKeysOk(ParseInt, entries);
      ConvertKeys(ParseInt, entries)
  }

  /** The size table the node ends up with, or the exception that aborts start-up. */
  function BuildSizeTable(markerSize: real, doc: JsonDoc): Result<SizeTable, StartupError> {
    match BuildMarkerMap(doc)
    case Ok(m) => Ok(SizeTable(markerSize, m))
    case Err(e) => Err(e)
  }

  /** Undecodable `marker_map` text leaves every marker at the default size. */
  lemma DecodeFailureUsesDefault(markerSize: real, id: int)
    ensures BuildSizeTable(markerSize, DecodeError).Ok?
    ensures GetMarkerSize(BuildSizeTable(markerSize, DecodeError).value, id) == markerSize
  {
  }

  /** An ID whose last override entry is `i` gets that entry's size, whatever the default. */
  lemma OverrideWins(markerSize: real, entries: seq<(string, real)>, i: int, id: int)
    requires BuildSizeTable(markerSize, Object(entries)).Ok?
    requires LastFor(ParseInt, entries, i, id)
    ensures GetMarkerSize(BuildSizeTable(markerSize, Object(entries)).value, id) == entries[i].1
  {
    ConvertKeysLastWins(ParseInt, entries, i, id);
  }

  /** An ID no override key names gets the default size: lookup never fails. */
  lemma UnlistedUsesDefault(markerSize: real, entries: seq<(string, real)>, id: int)
    requires BuildSizeTable(markerSize, Object(entries)).Ok?
    requires !Mentions(ParseInt, entries, id)
    ensures GetMarkerSize(BuildSizeTable(markerSize, Object(entries)).value, id) == markerSize
  {
    ConvertKeysDomain(ParseInt, entries, id);
  }

  /** The table is built exactly when every key is an integer literal `int` accepts. */
  lemma BuildSucceedsIffKeysParse(markerSize: real, entries: seq<(string, real)>)
    ensures BuildSizeTable(markerSize, Object(entries)).Ok?
        <==> forall i :: 0 <= i < |entries| ==> ParseInt(entries[i].0).Some?
  {
    ConvertKeysOk(ParseInt, entries);
  }

  /** A key `int` cannot read aborts start-up, naming the first such key. */
  lemma BadKeyAborts(markerSize: real, entries: seq<(string, real)>, i: int)
    requires 0 <= i < |entries| && ParseInt(entries[i].0).None?
    ensures BuildSizeTable(markerSize, Object(entries)).Err?
    ensures exists j :: FirstBadKey(ParseInt, entries, j)
                     && BuildSizeTable(markerSize, Object(entries)).error == BadKey(entries[j].0)
  {
    ConvertKeysOk(ParseInt, entries);
    ConvertKeysError(ParseInt, entries);
  }

  /** A JSON value that is not an object aborts start-up rather than falling back. */
  lemma NonObjectAborts(markerSize: real)
    ensures BuildSizeTable(markerSize, NotAnObject) == Err(ItemsMissing)
  {
  }
}
