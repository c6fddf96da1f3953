/** The browser's `window.localStorage` as the progress store sees it: a map
    from keys to strings whose reads and writes may throw (storage disabled,
    quota exceeded). Which keys fail is part of the environment and fixed
    for the lifetime of the object. */
module Storage {
  import opened Options
  import opened Json

  /** What `localStorage.getItem(key)` does: throws, returns null, or returns
      the stored string. */
  datatype ReadOutcome = Throws | Missing | Present(text: string)

  class LocalStorage {
    var items: map<string, string>
    /** Keys whose `getItem` throws. */
    const readFails: set<string>
    /** Keys whose `setItem` throws. */
    const writeFails: set<string>

    constructor(items0: map<string, string>, readFails0: set<string>, writeFails0: set<string>)
      ensures items == items0 && readFails == readFails0 && writeFails == writeFails0
    {
      items := items0;
      readFails := readFails0;
      writeFails := writeFails0;
    }

    /** `getItem(key)`. */
    function GetItem(key: string): (r: ReadOutcome)
      reads this
      ensures r.Throws? <==> key in readFails
      ensures r.Present? <==> key !in readFails && key in items
      ensures r.Present? ==> r.text == items[key]
    {
      if key in readFails then Throws
      else if key in items then Present(items[key])
      else Missing
    }

    /** The items after writing `text` under `key` on top of `before`: a key
        whose writes fail keeps its old item, every other key is untouched. */
    function Written(before: map<string, string>, key: string, text: string): (after: map<string, string>)
      ensures key !in writeFails ==> key in after && after[key] == text
      ensures forall k :: k != key ==> (k in after <==> k in before)
      ensures forall k :: k != key && k in before ==> after[k] == before[k]
      ensures key in writeFails ==> after == before
    {
      if key in writeFails then before else before[key := text]
    }

    /** `setItem(key, value)`; `ok` is false where the call throws, and then
        nothing is stored. */
    method SetItem(key: string, value: string) returns (ok: bool)
      modifies this
      ensures ok <==> key !in writeFails
      ensures items == Written(old(items), key, value)
    {
      ok := key !in writeFails;
      if ok {
        items := items[key := value];
      }
    }

    /** The items after saving `v` under `key` on top of `before`. */
    function Saved(before: map<string, string>, key: string, v: Json): map<string, string> {
      Written(before, key, Serialize(v))
    }

    /** `setItem(key, JSON.stringify(v))` inside a try/catch that only logs:
        a failed write is swallowed. */
    method Save(key: string, v: Json)
      modifies this
      ensures items == Saved(old(items), key, v)
    {
      var _ := SetItem(key, Serialize(v));
    }
  }

  /** `getStoredData(key, fallback)` on what `getItem` did: the parsed value
      when a non-empty string parses, the fallback otherwise; it never throws. */
  function StoredData(read: ReadOutcome, fallback: Json): (r: Json)
    ensures (read.Throws? || read.Missing? || read == Present("")) ==> r == fallback
    ensures read.Present? && read.text != "" && Parse(read.text).Some? ==> r == Parse(read.text).value
    ensures read.Present? && Parse(read.text).None? ==> r == fallback
  {
    match read
    case Throws => fallback
    case Missing => fallback
    case Present(text) =>
      if text == "" then fallback
      else
        match Parse(text)
        case Some(v) => v
        case None => fallback
  }

  /** What was saved under a key whose reads do not fail is read back as the
      value that was saved. */
  lemma StoredDataOfSaved(v: Json, fallback: Json)
    ensures StoredData(Present(Serialize(v)), fallback) == v
  {
    RoundTrip(v);
    SerializeStart(v);
  }
}
